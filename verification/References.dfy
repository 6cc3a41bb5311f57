/**
 * The relation between entities that documents show: a record refers to the typed, identified
 * records directly below it, in a property or in an array there.
 */
module References {
  import opened Json
  import opened Targets
  import opened Views
  import opened Statements
  import opened Climb

  function KeyOf(view: View): Option<Key>
  {
    if view.Rec? && OwnView(view) != [] then Some(Key(OwnView(view)[0].typeName, OwnView(view)[0].iri)) else None
  }

  /** The records directly below a property. */
  function Heads(view: View): seq<Key>
    decreases view
  {
    match view
    case Leaf(_) => []
    case Items(views) => ListHeads(views)
    case Rec(_, _, _) => if KeyOf(view).Some? then [KeyOf(view).value] else []
  }

  function ListHeads(views: seq<View>): seq<Key>
    decreases views
  {
    if views == [] then [] else Heads(views[0]) + ListHeads(views[1..])
  }

  function Links(owner: Key, property: string, heads: seq<Key>): (r: seq<Reference>)
    ensures |r| == |heads|
  {
    seq(|heads|, i requires 0 <= i < |heads| => Reference(owner.typeName, owner.iri, property, heads[i].iri))
  }

  /** Every reference in a document. */
  function RefsIn(view: View): seq<Reference>
    decreases view
  {
    match view
    case Leaf(_) => []
    case Items(views) => ListRefs(views)
    case Rec(_, core, _) => CoreRefs(KeyOf(view), core)
  }

  function ListRefs(views: seq<View>): seq<Reference>
    decreases views
  {
    if views == [] then [] else RefsIn(views[0]) + ListRefs(views[1..])
  }

  function CoreRefs(owner: Option<Key>, core: seq<Shown>): seq<Reference>
    decreases core
  {
    if core == [] then []
    else
      (if owner.Some? then Links(owner.value, core[0].key, Heads(core[0].view)) else [])
      + RefsIn(core[0].view) + CoreRefs(owner, core[1..])
  }

  // ----- exactly the references a document shows -----

  /** The record r is somewhere in the tree. */
  ghost predicate Contains(view: View, r: View)
    decreases view
  {
    match view
    case Leaf(_) => false
    case Items(views) => exists i :: 0 <= i < |views| && Contains(views[i], r)
    case Rec(_, core, _) => view == r || exists i :: 0 <= i < |core| && Contains(core[i].view, r)
  }

  /** The value is a record with the id, or an array with one in it. */
  ghost predicate Directly(view: View, iri: string)
    decreases view
  {
    match view
    case Leaf(_) => false
    case Items(views) => exists i :: 0 <= i < |views| && Directly(views[i], iri)
    case Rec(_, _, _) => KeyOf(view).Some? && KeyOf(view).value.iri == iri
  }

  /** The record refers to the entity in one of its properties. */
  ghost predicate RefersBy(r: View, x: Reference)
  {
    && r.Rec? && KeyOf(r) == Some(Key(x.parentType, x.parent))
    && exists i :: 0 <= i < |r.core| && r.core[i].key == x.property && Directly(r.core[i].view, x.child)
  }

  lemma {:induction false} HeadsExact(view: View, iri: string)
    ensures (exists k :: k in Heads(view) && k.iri == iri) <==> Directly(view, iri)
    decreases view, 1
  {
    match view
    case Leaf(_) =>
    case Items(views) => ListHeadsExact(views, iri);
    case Rec(_, _, _) => if KeyOf(view).Some? { assert KeyOf(view).value in Heads(view); }
  }

  lemma {:induction false} ListHeadsExact(views: seq<View>, iri: string)
    ensures (exists k :: k in ListHeads(views) && k.iri == iri) <==> exists i :: 0 <= i < |views| && Directly(views[i], iri)
    decreases views, 0
  {
    if views != [] {
      HeadsExact(views[0], iri);
      ListHeadsExact(views[1..], iri);
      if k :| k in ListHeads(views[1..]) && k.iri == iri { assert k in ListHeads(views); }
      if k :| k in Heads(views[0]) && k.iri == iri { assert k in ListHeads(views); }
      if i :| 0 <= i < |views| - 1 && Directly(views[1..][i], iri) { assert views[i + 1] == views[1..][i]; }
      if i :| 0 < i < |views| && Directly(views[i], iri) { assert views[1..][i - 1] == views[i]; }
    }
  }

  /** A document shows a reference if and only if one of its records has it in a property, directly or in an array. */
  lemma {:induction false} RefsExact(view: View, x: Reference)
    ensures x in RefsIn(view) <==> exists r :: Contains(view, r) && RefersBy(r, x)
    decreases view, 2
  {
    match view
    case Leaf(_) =>
    case Items(views) =>
      ListRefsExact(views, x);
      if i :| 0 <= i < |views| && exists r :: Contains(views[i], r) && RefersBy(r, x) {
        var r :| Contains(views[i], r) && RefersBy(r, x);
        assert Contains(view, r);
      }
      if r :| Contains(view, r) && RefersBy(r, x) { var i :| 0 <= i < |views| && Contains(views[i], r); }
    case Rec(_, core, _) =>
      CoreRefsExact(KeyOf(view), core, x);
      RecordRefsExact(view, x);
  }

  lemma RecordRefsExact(view: View, x: Reference)
    requires view.Rec?
    ensures (exists r :: Contains(view, r) && RefersBy(r, x)) <==> InCoreRefs(KeyOf(view), view.core, x)
  {
    if r :| Contains(view, r) && RefersBy(r, x) {
      if r != view { var i :| 0 <= i < |view.core| && Contains(view.core[i].view, r); }
    }
    if i :| 0 <= i < |view.core| && exists r :: Contains(view.core[i].view, r) && RefersBy(r, x) {
      var r :| Contains(view.core[i].view, r) && RefersBy(r, x);
      assert Contains(view, r);
    }
    if RefersBy(view, x) { assert Contains(view, view); }
  }

  /** From the fields: the owner refers by one of them, or some record in one of them does. */
  ghost predicate InCoreRefs(owner: Option<Key>, core: seq<Shown>, x: Reference)
  {
    || (owner == Some(Key(x.parentType, x.parent))
        && exists i :: 0 <= i < |core| && core[i].key == x.property && Directly(core[i].view, x.child))
    || exists i :: 0 <= i < |core| && exists r :: Contains(core[i].view, r) && RefersBy(r, x)
  }

  lemma {:induction false} ListRefsExact(views: seq<View>, x: Reference)
    ensures x in ListRefs(views) <==> exists i :: 0 <= i < |views| && exists r :: Contains(views[i], r) && RefersBy(r, x)
    decreases views, 1
  {
    if views != [] {
      RefsExact(views[0], x);
      ListRefsExact(views[1..], x);
      assert forall i :: 0 < i < |views| ==> views[i] == views[1..][i - 1];
      assert forall i :: 0 <= i < |views| - 1 ==> views[1..][i] == views[i + 1];
    }
  }

  lemma {:induction false} CoreRefsExact(owner: Option<Key>, core: seq<Shown>, x: Reference)
    ensures x in CoreRefs(owner, core) <==> InCoreRefs(owner, core, x)
    decreases core, 1
  {
    if core != [] {
      RefsExact(core[0].view, x);
      CoreRefsExact(owner, core[1..], x);
      HeadsExact(core[0].view, x.child);
      LinksExact(owner, core[0], x);
      assert forall i :: 0 < i < |core| ==> core[i] == core[1..][i - 1];
      assert forall i :: 0 <= i < |core| - 1 ==> core[1..][i] == core[i + 1];
    }
  }

  lemma LinksExact(owner: Option<Key>, field: Shown, x: Reference)
    ensures owner.Some? ==>
      (x in Links(owner.value, field.key, Heads(field.view)) <==>
         owner == Some(Key(x.parentType, x.parent)) && field.key == x.property
         && exists k :: k in Heads(field.view) && k.iri == x.child)
  {
    if owner.Some? {
      var heads := Heads(field.view);
      var links := Links(owner.value, field.key, heads);
      if x in links {
        var i :| 0 <= i < |links| && links[i] == x;
        assert heads[i] in heads;
      }
      if k :| k in heads && k.iri == x.child {
        var i :| 0 <= i < |heads| && heads[i] == k;
        assert links[i] == Reference(owner.value.typeName, owner.value.iri, field.key, k.iri);
      }
    }
  }

  // ----- documents that follow the schema -----

  /** Below a property of a record: each record is related along an edge, and so is what lies below it. */
  ghost predicate FollowsAt(edges: seq<Edge>, typeName: string, property: string, view: View)
    decreases view
  {
    match view
    case Leaf(_) => true
    case Items(views) => forall i :: 0 <= i < |views| ==> FollowsAt(edges, typeName, property, views[i])
    case Rec(_, core, _) =>
      if KeyOf(view).Some? then
        var child := KeyOf(view).value.typeName;
        && Edge(typeName, child, property) in edges
        && forall i :: 0 <= i < |core| ==> FollowsAt(edges, child, core[i].key, core[i].view)
      else EntityViews(view) == []
  }

  /** A document of the root; records of the root type below it are related along edges like others. */
  ghost predicate FollowsEdges(edges: seq<Edge>, rootType: string, root: string, view: View)
  {
    && view.Rec? && KeyOf(view) == Some(Key(rootType, root))
    && forall i :: 0 <= i < |view.core| ==> FollowsAt(edges, rootType, view.core[i].key, view.core[i].view)
  }

  predicate Shows(view: View, key: Key)
  {
    exists i :: 0 <= i < |EntityViews(view)| && Names(EntityViews(view)[i], key)
  }

  predicate Names(seen: Seen, key: Key)
  {
    seen.typeName == key.typeName && seen.iri == key.iri
  }

  ghost predicate Within(part: seq<Reference>, refs: seq<Reference>)
  {
    forall x :: x in part ==> x in refs
  }

  /** What is shown below a property of a record the root is reached from can reach the root itself. */
  lemma {:induction false} ShownIsReferenced(
      refs: seq<Reference>, edges: seq<Edge>, rootType: string, root: string, owner: Key, property: string, view: View,
      n: nat, seen: Seen)
    requires FollowsAt(edges, owner.typeName, property, view)
    requires Within(Links(owner, property, Heads(view)), refs) && Within(RefsIn(view), refs)
    requires TypedChain(refs, edges, owner.typeName, owner.iri, rootType, root, n)
    requires seen in EntityViews(view)
    ensures exists m: nat :: TypedChain(refs, edges, seen.typeName, seen.iri, rootType, root, m)
    decreases view, 1
  {
    match view
    case Items(views) =>
      var i := ListMember(views, seen);
      HeadsWithin(views, i);
      forall x | x in Links(owner, property, Heads(views[i])) ensures x in refs {
        LinkIn(owner, property, Heads(views[i]), Heads(view), x);
      }
      RefsWithin(views, i);
      ShownIsReferenced(refs, edges, rootType, root, owner, property, views[i], n, seen);
    case Rec(_, core, _) =>
      if KeyOf(view).Some? {
        RecordIsReferenced(refs, edges, rootType, root, owner, property, view, n);
        if seen !in OwnView(view) {
          var i := CoreMember(core, seen);
          CoreWithin(KeyOf(view), core, i);
          ShownIsReferenced(refs, edges, rootType, root, KeyOf(view).value, core[i].key, core[i].view, n + 1, seen);
        }
      }
  }

  lemma RecordIsReferenced(
      refs: seq<Reference>, edges: seq<Edge>, rootType: string, root: string, owner: Key, property: string, view: View,
      n: nat)
    requires view.Rec? && KeyOf(view).Some? && FollowsAt(edges, owner.typeName, property, view)
    requires Within(Links(owner, property, Heads(view)), refs)
    requires TypedChain(refs, edges, owner.typeName, owner.iri, rootType, root, n)
    ensures TypedChain(refs, edges, KeyOf(view).value.typeName, KeyOf(view).value.iri, rootType, root, n + 1)
  {
    var key := KeyOf(view).value;
    assert Links(owner, property, Heads(view))[0] == Reference(owner.typeName, owner.iri, property, key.iri);
    assert Refers(refs, Edge(owner.typeName, key.typeName, property), owner.iri, key.iri);
  }

  lemma {:induction false} ListMember(views: seq<View>, seen: Seen) returns (i: nat)
    requires seen in ListEntities(views)
    ensures i < |views| && seen in EntityViews(views[i])
  {
    if seen in EntityViews(views[0]) {
      i := 0;
    } else {
      i := ListMember(views[1..], seen);
      i := i + 1;
    }
  }

  lemma {:induction false} CoreMember(core: seq<Shown>, seen: Seen) returns (i: nat)
    requires seen in CoreEntities(core)
    ensures i < |core| && seen in EntityViews(core[i].view)
  {
    if seen in EntityViews(core[0].view) {
      i := 0;
    } else {
      i := CoreMember(core[1..], seen);
      i := i + 1;
    }
  }

  lemma {:induction false} HeadsWithin(views: seq<View>, i: nat)
    requires i < |views|
    ensures forall k :: k in Heads(views[i]) ==> k in ListHeads(views)
  {
    if i > 0 {
      HeadsWithin(views[1..], i - 1);
    }
  }

  lemma LinkIn(owner: Key, property: string, some: seq<Key>, all: seq<Key>, x: Reference)
    requires x in Links(owner, property, some) && forall k :: k in some ==> k in all
    ensures x in Links(owner, property, all)
  {
    var i :| 0 <= i < |some| && Links(owner, property, some)[i] == x;
    assert some[i] in all;
    var j :| 0 <= j < |all| && all[j] == some[i];
    assert Links(owner, property, all)[j] == x;
  }

  lemma {:induction false} RefsWithin(views: seq<View>, i: nat)
    requires i < |views|
    ensures Within(RefsIn(views[i]), ListRefs(views))
  {
    if i > 0 {
      RefsWithin(views[1..], i - 1);
    }
  }

  lemma {:induction false} CoreWithin(owner: Option<Key>, core: seq<Shown>, i: nat)
    requires i < |core|
    ensures Within(RefsIn(core[i].view), CoreRefs(owner, core))
    ensures owner.Some? ==> Within(Links(owner.value, core[i].key, Heads(core[i].view)), CoreRefs(owner, core))
  {
    if i > 0 {
      CoreWithin(owner, core[1..], i - 1);
    }
  }

  /** Every entity a document shows is one that its root depends on. */
  lemma EntityIsReferenced(
      refs: seq<Reference>, edges: seq<Edge>, rootType: string, root: string, view: View, key: Key)
    requires FollowsEdges(edges, rootType, root, view) && Within(RefsIn(view), refs) && Shows(view, key)
    ensures DependsOn(refs, edges, key.typeName, [key.iri], rootType, root)
  {
    var i :| 0 <= i < |EntityViews(view)| && Names(EntityViews(view)[i], key);
    var seen := EntityViews(view)[i];
    assert TypedChain(refs, edges, rootType, root, rootType, root, 0);
    assert key.iri in [key.iri];
    if seen in OwnView(view) {
      assert TypedChain(refs, edges, key.typeName, key.iri, rootType, root, 0);
    } else {
      var k := CoreMember(view.core, seen);
      CoreWithin(KeyOf(view), view.core, k);
      ShownIsReferenced(refs, edges, rootType, root, Key(rootType, root), view.core[k].key, view.core[k].view, 0, seen);
      var m: nat :| TypedChain(refs, edges, seen.typeName, seen.iri, rootType, root, m);
    }
  }

  // ----- changing one entity -----

  /** The trees differ inside records of the entity only. */
  ghost predicate Edited(key: Key, v: View, w: View)
    decreases v
  {
    || v == w
    || (KeyOf(v) == Some(key) && KeyOf(w) == Some(key))
    || (v.Items? && w.Items? && |v.views| == |w.views|
        && forall i :: 0 <= i < |v.views| ==> Edited(key, v.views[i], w.views[i]))
    || (v.Rec? && w.Rec? && v.typeName == w.typeName && v.outs == w.outs && |v.core| == |w.core|
        && forall i :: 0 <= i < |v.core| ==> v.core[i].key == w.core[i].key && Edited(key, v.core[i].view, w.core[i].view))
  }

  /** A tree that was changed shows the entity. */
  lemma {:induction false} EditedShows(key: Key, v: View, w: View)
    requires Edited(key, v, w) && v != w
    ensures Shows(w, key)
    decreases v
  {
    if KeyOf(v) == Some(key) && KeyOf(w) == Some(key) {
      assert Names(EntityViews(w)[0], key);
    } else if v.Items? {
      assert v.views != w.views;
      var i :| 0 <= i < |v.views| && v.views[i] != w.views[i];
      EditedShows(key, v.views[i], w.views[i]);
      var k :| 0 <= k < |EntityViews(w.views[i])| && Names(EntityViews(w.views[i])[k], key);
      InList(w.views, i, EntityViews(w.views[i])[k]);
      ShowsMember(w, EntityViews(w.views[i])[k], key);
    } else {
      assert v.core != w.core;
      var i :| 0 <= i < |v.core| && v.core[i] != w.core[i];
      assert v.core[i].view != w.core[i].view;
      EditedShows(key, v.core[i].view, w.core[i].view);
      var k :| 0 <= k < |EntityViews(w.core[i].view)| && Names(EntityViews(w.core[i].view)[k], key);
      InCore(w.core, i, EntityViews(w.core[i].view)[k]);
      ShowsMember(w, EntityViews(w.core[i].view)[k], key);
    }
  }

  lemma ShowsMember(view: View, seen: Seen, key: Key)
    requires seen in EntityViews(view) && Names(seen, key)
    ensures Shows(view, key)
  {
  }

  lemma {:induction false} InList(views: seq<View>, i: nat, seen: Seen)
    requires i < |views| && seen in EntityViews(views[i])
    ensures seen in ListEntities(views)
  {
    if i > 0 {
      InList(views[1..], i - 1, seen);
    }
  }

  lemma {:induction false} InCore(core: seq<Shown>, i: nat, seen: Seen)
    requires i < |core| && seen in EntityViews(core[i].view)
    ensures seen in CoreEntities(core)
  {
    if i > 0 {
      InCore(core[1..], i - 1, seen);
    }
  }
}
