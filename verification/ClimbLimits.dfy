/**
 * The limits of the climb (packages/calc-engine/src/delta.ts:108-162): for which schemas it
 * returns exactly the dependent roots on every store, and for which it never returns some
 * dependent roots while it leaves out others.
 */
module ClimbLimits {
  import opened Json
  import opened Climb

  /** Definitions and properties are object keys, so no parent has a property twice. */
  ghost predicate Distinct(edges: seq<Edge>)
  {
    forall i, j :: 0 <= i < j < |edges| ==> !(edges[i].parent == edges[j].parent && edges[i].property == edges[j].property)
  }

  ghost predicate Named(edges: seq<Edge>)
  {
    forall e :: e in edges ==> e.property != ""
  }

  lemma SameEdge(edges: seq<Edge>, e: Edge, f: Edge)
    requires Distinct(edges) && e in edges && f in edges && e.parent == f.parent && e.property == f.property
    ensures e == f
  {
    var i :| 0 <= i < |edges| && edges[i] == e;
    var j :| 0 <= j < |edges| && edges[j] == f;
  }

  ghost predicate Reaches(edges: seq<Edge>, typeName: string, root: string, hops: int)
  {
    exists es :: TypeRoute(edges, typeName, root, es) && |es| <= hops
  }

  // ----- which type a hop takes for all parents -----

  ghost predicate Found(inbound: seq<Edge>, planner: Planner, typeName: string, iris: seq<string>, i: int)
    requires 0 <= i < |inbound|
  {
    planner(typeName, iris, inbound[i].parent, inbound[i].property) != []
  }

  /** Edge i is preferred to edge j when both find parents. */
  ghost predicate Preferred(inbound: seq<Edge>, root: string, i: int, j: int)
    requires 0 <= i < |inbound| && 0 <= j < |inbound|
  {
    inbound[i].parent == root || (inbound[j].parent != root && i <= j)
  }

  lemma {:induction false} HopTakes(
      inbound: seq<Edge>, planner: Planner, typeName: string, iris: seq<string>, root: string, i: nat)
    requires i < |inbound| && Found(inbound, planner, typeName, iris, i)
    requires forall j :: 0 <= j < |inbound| && Found(inbound, planner, typeName, iris, j) ==>
               Preferred(inbound, root, i, j) || inbound[j].parent == inbound[i].parent
    ensures HopOver(inbound, planner, typeName, iris, root).nextType == Some(inbound[i].parent)
  {
    var n := |inbound| - 1;
    var init := inbound[..n];
    if i < n {
      forall j | 0 <= j < n && Found(init, planner, typeName, iris, j)
        ensures Preferred(init, root, i, j) || init[j].parent == init[i].parent
      {
        assert Found(inbound, planner, typeName, iris, j);
      }
      HopTakes(init, planner, typeName, iris, root, i);
    } else if HopOver(init, planner, typeName, iris, root).nextType.Some? {
      var k := HopTaken(init, planner, typeName, iris, root);
      assert Found(inbound, planner, typeName, iris, k);
    }
  }

  lemma {:induction false} HopTaken(
      inbound: seq<Edge>, planner: Planner, typeName: string, iris: seq<string>, root: string) returns (i: nat)
    requires HopOver(inbound, planner, typeName, iris, root).nextType.Some?
    ensures i < |inbound| && Found(inbound, planner, typeName, iris, i)
    ensures HopOver(inbound, planner, typeName, iris, root).nextType == Some(inbound[i].parent)
    ensures forall j :: 0 <= j < |inbound| && Found(inbound, planner, typeName, iris, j) ==> Preferred(inbound, root, i, j)
  {
    var n := |inbound| - 1;
    var init := inbound[..n];
    var before := HopOver(init, planner, typeName, iris, root);
    if before.nextType.Some? {
      var k := HopTaken(init, planner, typeName, iris, root);
      forall j | 0 <= j < n && Found(inbound, planner, typeName, iris, j) ensures Preferred(inbound, root, k, j) {
        assert Found(init, planner, typeName, iris, j);
      }
      i := if Found(inbound, planner, typeName, iris, n) && inbound[n].parent == root then n else k;
    } else {
      i := n;
      forall j | 0 <= j < n ensures !Found(inbound, planner, typeName, iris, j) {
        NothingTaken(init, planner, typeName, iris, root, j);
      }
    }
  }

  lemma {:induction false} NothingTaken(
      inbound: seq<Edge>, planner: Planner, typeName: string, iris: seq<string>, root: string, j: nat)
    requires HopOver(inbound, planner, typeName, iris, root).nextType.None? && j < |inbound|
    ensures !Found(inbound, planner, typeName, iris, j)
  {
    var n := |inbound| - 1;
    if j < n {
      NothingTaken(inbound[..n], planner, typeName, iris, root, j);
    }
  }

  // ----- stores that hold one route -----

  /** IRIs that differ by their length. */
  function Name(n: nat): (name: string)
    ensures |name| == n
  {
    seq(n, i => 'x')
  }

  /** References along a route, from a given IRI through the names from s on. */
  function Route(es: seq<Edge>, start: string, s: nat): seq<Reference>
    decreases |es|
  {
    if es == [] then []
    else [Reference(es[0].parent, Name(s), es[0].property, start)] + Route(es[1..], Name(s), s + 1)
  }

  function End(es: seq<Edge>, start: string, s: nat): string
    decreases |es|
  {
    if es == [] then start else End(es[1..], Name(s), s + 1)
  }

  lemma {:induction false} RouteNames(es: seq<Edge>, start: string, s: nat, x: Reference)
    requires x in Route(es, start, s)
    ensures (x.child == start || s <= |x.child| < s + |es|) && s <= |x.parent| < s + |es|
    decreases |es|
  {
    if x != Reference(es[0].parent, Name(s), es[0].property, start) {
      RouteNames(es[1..], Name(s), s + 1, x);
    }
  }

  lemma {:induction false} EndName(es: seq<Edge>, start: string, s: nat)
    ensures if es == [] then End(es, start, s) == start else |End(es, start, s)| == s + |es| - 1
    decreases |es|
  {
    if es != [] { EndName(es[1..], Name(s), s + 1); }
  }

  /** The store holds the route, and nothing else refers to an IRI on it. */
  ghost predicate Holds(refs: seq<Reference>, es: seq<Edge>, start: string, s: nat)
    decreases |es|
  {
    if es == [] then forall x :: x in refs ==> x.child != start
    else
      && (forall x :: x in refs && x.child == start <==> x == Reference(es[0].parent, Name(s), es[0].property, start))
      && Holds(refs, es[1..], Name(s), s + 1)
  }

  lemma {:induction false} StoreHolds(
      refs: seq<Reference>, es: seq<Edge>, start: string, s: nat)
    requires forall x :: x in Route(es, start, s) ==> x in refs
    requires forall x :: x in refs && (x.child == start || s <= |x.child| < s + |es|) ==> x in Route(es, start, s)
    requires |start| < s
    ensures Holds(refs, es, start, s)
    decreases |es|
  {
    if es != [] {
      var first := Reference(es[0].parent, Name(s), es[0].property, start);
      forall x | x in refs && (x.child == Name(s) || s + 1 <= |x.child| < s + |es|)
        ensures x in Route(es[1..], Name(s), s + 1)
      {
        assert x in Route(es, start, s) && x != first;
      }
      StoreHolds(refs, es[1..], Name(s), s + 1);
      forall x | x in refs && x.child == start ensures x == first {
        if x != first { RouteNames(es[1..], Name(s), s + 1, x); }
      }
      assert first in Route(es, start, s);
    }
  }

  /** Some edge into the type has the type and the property of the reference. */
  ghost predicate Matches(edges: seq<Edge>, typeName: string, x: Reference)
  {
    exists e :: e in edges && e.child == typeName && e.parent == x.parentType && e.property == x.property
  }

  lemma HopMembers(
      refs: seq<Reference>, edges: seq<Edge>, typeName: string, iris: seq<string>, root: string, p: string)
    requires Named(edges)
    ensures p in HopOver(Inbound(edges, typeName), PlannerOf(refs), typeName, iris, root).next <==>
            exists x :: x in refs && x.child in iris && x.parent == p && Matches(edges, typeName, x)
  {
    var inbound := Inbound(edges, typeName);
    PlannerOfIsExact(refs, edges);
    forall e ensures e in inbound <==> e in edges && e.child == typeName { InboundExact(edges, typeName, e); }
    HopExact(refs, edges, inbound, PlannerOf(refs), typeName, iris, root, p);
    if StepsTo(refs, inbound, iris, p) {
      var e :| e in inbound && RefersToSome(refs, e.parent, p, e.property, iris);
      var x :| x in refs && x.parentType == e.parent && x.parent == p && x.property == e.property && x.child in iris;
      assert Matches(edges, typeName, x);
    }
    if x :| x in refs && x.child in iris && x.parent == p && Matches(edges, typeName, x) {
      var e :| e in edges && e.child == typeName && e.parent == x.parentType && e.property == x.property;
      assert e in inbound && RefersToSome(refs, e.parent, p, e.property, iris);
    }
  }

  lemma FoundIff(
      refs: seq<Reference>, edges: seq<Edge>, typeName: string, iris: seq<string>, i: nat)
    requires Named(edges) && i < |Inbound(edges, typeName)|
    ensures var e := Inbound(edges, typeName)[i];
      && e in edges && e.child == typeName
      && (Found(Inbound(edges, typeName), PlannerOf(refs), typeName, iris, i) <==>
          exists x :: x in refs && x.child in iris && x.parentType == e.parent && x.property == e.property)
  {
    var e := Inbound(edges, typeName)[i];
    InboundExact(edges, typeName, e);
    var parents := FindParents(refs, iris, e.parent, e.property);
    if parents != [] {
      FindParentsExact(refs, iris, e.parent, e.property, parents[0]);
      assert parents[0] in parents;
    }
    if x :| x in refs && x.child in iris && x.parentType == e.parent && x.property == e.property {
      FindParentsExact(refs, iris, e.parent, e.property, x.parent);
      assert RefersToSome(refs, e.parent, x.parent, e.property, iris);
    }
  }

  /** When all matching references are along one edge, the hop finds their parents and takes the edge's type. */
  lemma HopAlong(
      refs: seq<Reference>, edges: seq<Edge>, typeName: string, iris: seq<string>, root: string, e: Edge, x: Reference)
    requires Named(edges) && e in edges && e.child == typeName
    requires x in refs && x.child in iris && x.parentType == e.parent && x.property == e.property
    requires forall y :: y in refs && y.child in iris && Matches(edges, typeName, y) ==> y == x
    ensures var hop := HopOver(Inbound(edges, typeName), PlannerOf(refs), typeName, iris, root);
      && (forall p :: p in hop.next <==> p == x.parent)
      && hop.nextType == Some(e.parent)
  {
    var inbound, planner := Inbound(edges, typeName), PlannerOf(refs);
    forall p ensures p in HopOver(inbound, planner, typeName, iris, root).next <==> p == x.parent {
      HopMembers(refs, edges, typeName, iris, root, p);
      assert Matches(edges, typeName, x);
    }
    InboundExact(edges, typeName, e);
    var i :| 0 <= i < |inbound| && inbound[i] == e;
    FoundIff(refs, edges, typeName, iris, i);
    forall j | 0 <= j < |inbound| && Found(inbound, planner, typeName, iris, j)
      ensures inbound[j].parent == inbound[i].parent
    {
      FoundIff(refs, edges, typeName, iris, j);
      var y :| y in refs && y.child in iris && y.parentType == inbound[j].parent && y.property == inbound[j].property;
      assert Matches(edges, typeName, y);
    }
    HopTakes(inbound, planner, typeName, iris, root, i);
  }

  /** The store holds the route; only its last entity may be referred to from elsewhere. */
  ghost predicate Along(refs: seq<Reference>, es: seq<Edge>, start: string, s: nat)
    decreases |es|
  {
    es != [] ==>
      && (forall x :: x in refs && x.child == start <==> x == Reference(es[0].parent, Name(s), es[0].property, start))
      && Along(refs, es[1..], Name(s), s + 1)
  }

  lemma {:induction false} HoldsAlong(refs: seq<Reference>, es: seq<Edge>, more: seq<Edge>, start: string, s: nat)
    requires Holds(refs, es + more, start, s)
    ensures Along(refs, es, start, s)
    decreases |es|
  {
    if es != [] {
      assert (es + more)[1..] == es[1..] + more;
      HoldsAlong(refs, es[1..], more, Name(s), s + 1);
    }
  }

  lemma RouteClimbs(
      refs: seq<Reference>, edges: seq<Edge>, typeName: string, es: seq<Edge>, root: string, start: string, s: nat,
      iris: seq<string>, hops: nat)
    requires Named(edges) && TypeRoute(edges, typeName, root, es) && Holds(refs, es, start, s)
    requires start in iris
    requires forall x :: x in refs && x.child in iris && Matches(edges, typeName, x) ==> x.child == start
    ensures |es| > hops ==> ClimbFrom(edges, PlannerOf(refs), typeName, iris, root, hops).0 == []
    ensures 0 < |es| <= hops ==>
      forall r :: r in ClimbFrom(edges, PlannerOf(refs), typeName, iris, root, hops).0 <==> r == End(es, start, s)
  {
    assert es + [] == es;
    HoldsAlong(refs, es, [], start, s);
    AlongClimbs(refs, edges, typeName, es, root, start, s, iris, hops);
  }

  /** From the start of a route the climb finds its end, if the hops suffice, and nothing else. */
  lemma {:induction false} AlongClimbs(
      refs: seq<Reference>, edges: seq<Edge>, typeName: string, es: seq<Edge>, root: string, start: string, s: nat,
      iris: seq<string>, hops: nat)
    requires Named(edges) && TypeRoute(edges, typeName, root, es) && Along(refs, es, start, s)
    requires start in iris
    requires forall x :: x in refs && x.child in iris && Matches(edges, typeName, x) ==> x.child == start
    ensures |es| > hops ==> ClimbFrom(edges, PlannerOf(refs), typeName, iris, root, hops).0 == []
    ensures 0 < |es| <= hops ==>
      forall r :: r in ClimbFrom(edges, PlannerOf(refs), typeName, iris, root, hops).0 <==> r == End(es, start, s)
    decreases hops
  {
    if es != [] && hops > 0 {
      var first := Reference(es[0].parent, Name(s), es[0].property, start);
      assert first in refs && first.child in iris;
      HopAlong(refs, edges, typeName, iris, root, es[0], first);
      var hop := HopOver(Inbound(edges, typeName), PlannerOf(refs), typeName, iris, root);
      assert Name(s) in hop.next;
      AlongClimbs(refs, edges, es[0].parent, es[1..], root, Name(s), s + 1, hop.next, hops - 1);
    }
  }

  lemma {:induction false} RouteDepends(
      refs: seq<Reference>, edges: seq<Edge>, typeName: string, es: seq<Edge>, root: string, start: string, s: nat)
    requires TypeRoute(edges, typeName, root, es) && Holds(refs, es, start, s)
    ensures RootChain(refs, edges, typeName, start, root, End(es, start, s), |es|)
    decreases |es|
  {
    if es != [] {
      RouteDepends(refs, edges, es[0].parent, es[1..], root, Name(s), s + 1);
      assert Refers(refs, es[0], Name(s), start);
    }
  }

  // ----- stores with two ways up from one entity -----

  lemma {:induction false} InboundDistinct(edges: seq<Edge>, typeName: string, i: nat, j: nat)
    requires Distinct(edges) && i < j < |Inbound(edges, typeName)|
    ensures Inbound(edges, typeName)[i] != Inbound(edges, typeName)[j]
  {
    var n := |edges| - 1;
    var init := edges[..n];
    assert edges == init + [edges[n]];
    if j < |Inbound(init, typeName)| {
      InboundDistinct(init, typeName, i, j);
    } else {
      var e := Inbound(init, typeName)[i];
      InboundExact(init, typeName, e);
      var k :| 0 <= k < n && edges[k] == e;
    }
  }

  ghost predicate Just(iris: seq<string>, c: string)
  {
    forall x :: x in iris <==> x == c
  }

  /** Two references to the entity s, along two edges, and a route on from each of the referring entities. */
  function Forked(e1: Edge, e2: Edge, es1: seq<Edge>, es2: seq<Edge>, s: nat): seq<Reference>
  {
    [Reference(e1.parent, Name(s + 1), e1.property, Name(s)), Reference(e2.parent, Name(s + 2), e2.property, Name(s))]
    + Route(es1, Name(s + 1), s + 3) + Route(es2, Name(s + 2), s + 3 + |es1|)
  }

  ghost predicate Above(refs: seq<Reference>, s: nat)
  {
    forall x :: x in refs ==> |x.child| >= s && |x.parent| > s
  }

  ghost predicate IsForked(refs: seq<Reference>, e1: Edge, e2: Edge, es1: seq<Edge>, es2: seq<Edge>, s: nat)
  {
    && (forall x :: x in refs && x.child == Name(s) <==>
          || x == Reference(e1.parent, Name(s + 1), e1.property, Name(s))
          || x == Reference(e2.parent, Name(s + 2), e2.property, Name(s)))
    && Holds(refs, es1, Name(s + 1), s + 3)
    && Holds(refs, es2, Name(s + 2), s + 3 + |es1|)
  }

  lemma ForkedIsForked(e1: Edge, e2: Edge, es1: seq<Edge>, es2: seq<Edge>, s: nat)
    ensures Above(Forked(e1, e2, es1, es2, s), s)
    ensures IsForked(Forked(e1, e2, es1, es2, s), e1, e2, es1, es2, s)
  {
    var refs, t := Forked(e1, e2, es1, es2, s), s + 3 + |es1|;
    var one, two := Route(es1, Name(s + 1), s + 3), Route(es2, Name(s + 2), t);
    var x1, x2 := refs[0], refs[1];
    forall x ensures x in refs <==> x == x1 || x == x2 || x in one || x in two {}
    RoutesApart(es1, es2, s);
    assert Holds(refs, es1, Name(s + 1), s + 3) by { StoreHolds(refs, es1, Name(s + 1), s + 3); }
    assert Holds(refs, es2, Name(s + 2), t) by { StoreHolds(refs, es2, Name(s + 2), t); }
  }

  lemma RoutesApart(es1: seq<Edge>, es2: seq<Edge>, s: nat)
    ensures forall x :: x in Route(es1, Name(s + 1), s + 3) ==>
              (x.child == Name(s + 1) || s + 3 <= |x.child| < s + 3 + |es1|) && s + 3 <= |x.parent|
    ensures forall x :: x in Route(es2, Name(s + 2), s + 3 + |es1|) ==>
              (x.child == Name(s + 2) || s + 3 + |es1| <= |x.child|) && s + 3 <= |x.parent|
  {
    forall x | x in Route(es1, Name(s + 1), s + 3)
      ensures (x.child == Name(s + 1) || s + 3 <= |x.child| < s + 3 + |es1|) && s + 3 <= |x.parent|
    {
      RouteNames(es1, Name(s + 1), s + 3, x);
    }
    forall x | x in Route(es2, Name(s + 2), s + 3 + |es1|)
      ensures (x.child == Name(s + 2) || s + 3 + |es1| <= |x.child|) && s + 3 <= |x.parent|
    {
      RouteNames(es2, Name(s + 2), s + 3 + |es1|, x);
    }
  }

  /** The hop finds both referring entities and takes both for entities of the preferred type. */
  lemma ForkedHop(
      refs: seq<Reference>, edges: seq<Edge>, typeName: string, root: string, i: nat, j: nat, es1: seq<Edge>,
      es2: seq<Edge>, s: nat, iris: seq<string>)
    requires var inbound := Inbound(edges, typeName);
      && i < |inbound| && j < |inbound| && Preferred(inbound, root, i, j)
      && IsForked(refs, inbound[i], inbound[j], es1, es2, s)
    requires Named(edges) && Distinct(edges) && Just(iris, Name(s))
    ensures var hop := HopOver(Inbound(edges, typeName), PlannerOf(refs), typeName, iris, root);
      && (forall p :: p in hop.next <==> p == Name(s + 1) || p == Name(s + 2))
      && hop.nextType == Some(Inbound(edges, typeName)[i].parent)
  {
    var inbound, planner := Inbound(edges, typeName), PlannerOf(refs);
    var e1, e2 := inbound[i], inbound[j];
    var x1 := Reference(e1.parent, Name(s + 1), e1.property, Name(s));
    var x2 := Reference(e2.parent, Name(s + 2), e2.property, Name(s));
    assert x1 in refs && x2 in refs;
    FoundIff(refs, edges, typeName, iris, i);
    FoundIff(refs, edges, typeName, iris, j);
    assert Matches(edges, typeName, x1) && Matches(edges, typeName, x2);
    forall p ensures p in HopOver(inbound, planner, typeName, iris, root).next <==> p == Name(s + 1) || p == Name(s + 2) {
      HopMembers(refs, edges, typeName, iris, root, p);
    }
    forall k | 0 <= k < |inbound| && Found(inbound, planner, typeName, iris, k)
      ensures Preferred(inbound, root, i, k) || inbound[k].parent == e1.parent
    {
      FoundIff(refs, edges, typeName, iris, k);
      if inbound[k].parent != e1.parent {
        assert inbound[k] == e2;
        if k < j { InboundDistinct(edges, typeName, k, j); }
        if j < k { InboundDistinct(edges, typeName, j, k); }
      }
    }
    HopTakes(inbound, planner, typeName, iris, root, i);
  }

  ghost predicate Leads(
      refs: seq<Reference>, edges: seq<Edge>, typeName: string, c: string, root: string, r: string)
  {
    exists n: nat :: RootChain(refs, edges, typeName, c, root, r, n)
  }

  lemma LeadsOn(
      refs: seq<Reference>, edges: seq<Edge>, e: Edge, p: string, c: string, iris: seq<string>, root: string, r: string)
    requires e in edges && e.child != root && Refers(refs, e, p, c) && c in iris && Leads(refs, edges, e.parent, p, root, r)
    ensures FirstRootFrom(refs, edges, e.child, iris, root, r)
  {
    var n: nat :| RootChain(refs, edges, e.parent, p, root, r, n);
    assert RootChain(refs, edges, e.child, c, root, r, n + 1);
  }

  /** What depends on the entity s depends on one of the two entities that refer to it. */
  lemma ForkedDepends(
      refs: seq<Reference>, edges: seq<Edge>, typeName: string, root: string, e1: Edge, e2: Edge, es1: seq<Edge>,
      es2: seq<Edge>, s: nat, iris: seq<string>, r: string)
    requires e1 in edges && e2 in edges && e1.child == typeName && e2.child == typeName && typeName != root
    requires IsForked(refs, e1, e2, es1, es2, s) && Just(iris, Name(s))
    ensures FirstRootFrom(refs, edges, typeName, iris, root, r) <==>
            Leads(refs, edges, e1.parent, Name(s + 1), root, r) || Leads(refs, edges, e2.parent, Name(s + 2), root, r)
  {
    assert Name(s) in iris;
    assert Refers(refs, e1, Name(s + 1), Name(s)) && Refers(refs, e2, Name(s + 2), Name(s));
    if FirstRootFrom(refs, edges, typeName, iris, root, r) {
      var c, n: nat :| c in iris && RootChain(refs, edges, typeName, c, root, r, n);
      var e, p :| e in edges && e.child == typeName && Refers(refs, e, p, c)
                  && RootChain(refs, edges, e.parent, p, root, r, n - 1);
    }
    if Leads(refs, edges, e1.parent, Name(s + 1), root, r) {
      LeadsOn(refs, edges, e1, Name(s + 1), Name(s), iris, root, r);
    }
    if Leads(refs, edges, e2.parent, Name(s + 2), root, r) {
      LeadsOn(refs, edges, e2, Name(s + 2), Name(s), iris, root, r);
    }
  }

  lemma MatchChild(edges: seq<Edge>, typeName: string, x: Reference, e: Edge)
    requires Distinct(edges) && e in edges && e.parent == x.parentType && e.property == x.property
    ensures Matches(edges, typeName, x) ==> e.child == typeName
  {
    if f :| f in edges && f.child == typeName && f.parent == x.parentType && f.property == x.property {
      SameEdge(edges, e, f);
    }
  }

  /** The end of the second route depends on the entity s. */
  lemma ForkedLeads(
      refs: seq<Reference>, edges: seq<Edge>, typeName: string, root: string, e1: Edge, e2: Edge, es1: seq<Edge>,
      es2: seq<Edge>, s: nat, iris: seq<string>)
    requires e2 in edges && e2.child == typeName && typeName != root && TypeRoute(edges, e2.parent, root, es2)
    requires IsForked(refs, e1, e2, es1, es2, s) && Just(iris, Name(s))
    ensures FirstRootFrom(refs, edges, typeName, iris, root, End(es2, Name(s + 2), s + 3 + |es1|))
  {
    var r := End(es2, Name(s + 2), s + 3 + |es1|);
    RouteDepends(refs, edges, e2.parent, es2, root, Name(s + 2), s + 3 + |es1|);
    assert Leads(refs, edges, e2.parent, Name(s + 2), root, r);
    assert Refers(refs, e2, Name(s + 2), Name(s)) && Name(s) in iris;
    LeadsOn(refs, edges, e2, Name(s + 2), Name(s), iris, root, r);
  }

  /** A route for one type is no way up from the same IRI taken for another type. */
  lemma WrongType(
      refs: seq<Reference>, edges: seq<Edge>, typeName: string, es: seq<Edge>, root: string, start: string, s: nat,
      other: string)
    requires Distinct(edges) && TypeRoute(edges, typeName, root, es) && Holds(refs, es, start, s) && other != typeName
    ensures forall x :: x in refs && x.child == start ==> !Matches(edges, other, x)
  {
    if es != [] {
      MatchChild(edges, other, Reference(es[0].parent, Name(s), es[0].property, start), es[0]);
    }
  }

  lemma ChainMatches(
      refs: seq<Reference>, edges: seq<Edge>, typeName: string, root: string, c: string, r: string, n: nat)
    requires typeName != root && RootChain(refs, edges, typeName, c, root, r, n)
    ensures exists x :: x in refs && x.child == c && Matches(edges, typeName, x)
  {
    var e, p :| e in edges && e.child == typeName && Refers(refs, e, p, c)
                && RootChain(refs, edges, e.parent, p, root, r, n - 1);
    assert Matches(edges, typeName, Reference(e.parent, p, e.property, c));
  }

  lemma NoMatchNoRoot(
      refs: seq<Reference>, edges: seq<Edge>, typeName: string, root: string, c: string, r: string)
    requires typeName != root && forall x :: x in refs && x.child == c ==> !Matches(edges, typeName, x)
    ensures !Leads(refs, edges, typeName, c, root, r)
  {
    if n: nat :| RootChain(refs, edges, typeName, c, root, r, n) {
      ChainMatches(refs, edges, typeName, root, c, r, n);
    }
  }

  lemma NoMatchNoHop(
      refs: seq<Reference>, edges: seq<Edge>, typeName: string, iris: seq<string>, root: string, hops: nat)
    requires Named(edges) && typeName != root
    requires forall x :: x in refs && x.child in iris ==> !Matches(edges, typeName, x)
    ensures ClimbFrom(edges, PlannerOf(refs), typeName, iris, root, hops).0 == []
  {
    if hops > 0 {
      var next := HopOver(Inbound(edges, typeName), PlannerOf(refs), typeName, iris, root).next;
      assert next != [] ==> next[0] in next;
      forall p ensures p !in next { HopMembers(refs, edges, typeName, iris, root, p); }
    }
  }

  // ----- one more reference below a store -----

  lemma {:induction false} FindParentsApart(
      refs: seq<Reference>, x: Reference, iris: seq<string>, parentType: string, property: string)
    requires x.child !in iris
    ensures FindParents(refs + [x], iris, parentType, property) == FindParents(refs, iris, parentType, property)
  {
    assert (refs + [x])[..|refs|] == refs;
  }

  lemma {:induction false} HopApart(
      refs: seq<Reference>, x: Reference, inbound: seq<Edge>, typeName: string, iris: seq<string>, root: string)
    requires x.child !in iris
    ensures HopOver(inbound, PlannerOf(refs + [x]), typeName, iris, root) ==
            HopOver(inbound, PlannerOf(refs), typeName, iris, root)
  {
    if inbound != [] {
      var n := |inbound| - 1;
      HopApart(refs, x, inbound[..n], typeName, iris, root);
      FindParentsApart(refs, x, iris, inbound[n].parent, inbound[n].property);
    }
  }

  lemma {:induction false} ClimbApart(
      refs: seq<Reference>, x: Reference, edges: seq<Edge>, typeName: string, iris: seq<string>, root: string, hops: nat)
    requires Named(edges) && x.child !in iris && forall y :: y in refs ==> y.parent != x.child
    ensures ClimbFrom(edges, PlannerOf(refs + [x]), typeName, iris, root, hops) ==
            ClimbFrom(edges, PlannerOf(refs), typeName, iris, root, hops)
    decreases hops
  {
    if typeName != root && hops > 0 {
      var inbound := Inbound(edges, typeName);
      HopApart(refs, x, inbound, typeName, iris, root);
      var hop := HopOver(inbound, PlannerOf(refs), typeName, iris, root);
      if hop.next != [] && hop.nextType.Some? {
        HopMembers(refs, edges, typeName, iris, root, x.child);
        ClimbApart(refs, x, edges, hop.nextType.value, hop.next, root, hops - 1);
      }
    }
  }

  lemma {:induction false} ChainApart(
      refs: seq<Reference>, x: Reference, edges: seq<Edge>, typeName: string, c: string, root: string, r: string, n: nat)
    requires c != x.child && forall y :: y in refs ==> y.parent != x.child
    ensures RootChain(refs + [x], edges, typeName, c, root, r, n) <==> RootChain(refs, edges, typeName, c, root, r, n)
    decreases n
  {
    if n > 0 {
      forall e, p | e in edges && e.child == typeName
        ensures Refers(refs + [x], e, p, c) <==> Refers(refs, e, p, c)
        ensures Refers(refs, e, p, c) ==>
          (RootChain(refs + [x], edges, e.parent, p, root, r, n - 1) <==> RootChain(refs, edges, e.parent, p, root, r, n - 1))
      {
        if Refers(refs, e, p, c) { ChainApart(refs, x, edges, e.parent, p, root, r, n - 1); }
      }
    }
  }

  /** One reference below a store shifts the climb and the dependencies by one hop. */
  lemma Prepended(
      refs: seq<Reference>, edges: seq<Edge>, e: Edge, root: string, s: nat, iris: seq<string>, hops: nat, r: string)
    returns (next: seq<string>)
    requires Named(edges) && e in edges && e.child != root && Above(refs, s + 1) && Just(iris, Name(s)) && hops > 0
    ensures Just(next, Name(s + 1))
    ensures var more := refs + [Reference(e.parent, Name(s + 1), e.property, Name(s))];
      && Above(more, s)
      && ClimbFrom(edges, PlannerOf(more), e.child, iris, root, hops).0 ==
         ClimbFrom(edges, PlannerOf(refs), e.parent, next, root, hops - 1).0
      && (FirstRootFrom(more, edges, e.child, iris, root, r) <==> FirstRootFrom(refs, edges, e.parent, next, root, r))
  {
    var x := Reference(e.parent, Name(s + 1), e.property, Name(s));
    var more := refs + [x];
    assert x in more && x.child in iris;
    HopAlong(more, edges, e.child, iris, root, e, x);
    next := HopOver(Inbound(edges, e.child), PlannerOf(more), e.child, iris, root).next;
    assert Name(s + 1) in next;
    ClimbApart(refs, x, edges, e.parent, next, root, hops - 1);
    PrependedDepends(refs, edges, e, root, s, iris, next, r);
  }

  lemma PrependedDepends(
      refs: seq<Reference>, edges: seq<Edge>, e: Edge, root: string, s: nat, iris: seq<string>, next: seq<string>, r: string)
    requires e in edges && e.child != root && Above(refs, s + 1) && Just(iris, Name(s)) && Just(next, Name(s + 1))
    ensures var more := refs + [Reference(e.parent, Name(s + 1), e.property, Name(s))];
      FirstRootFrom(more, edges, e.child, iris, root, r) <==> FirstRootFrom(refs, edges, e.parent, next, root, r)
  {
    var x := Reference(e.parent, Name(s + 1), e.property, Name(s));
    var more := refs + [x];
    if FirstRootFrom(more, edges, e.child, iris, root, r) {
      var c, n: nat :| c in iris && RootChain(more, edges, e.child, c, root, r, n);
      var f, p :| f in edges && f.child == e.child && Refers(more, f, p, c) && RootChain(more, edges, f.parent, p, root, r, n - 1);
      assert f.parent == e.parent && p == Name(s + 1);
      ChainApart(refs, x, edges, e.parent, p, root, r, n - 1);
      assert p in next;
    }
    if FirstRootFrom(refs, edges, e.parent, next, root, r) {
      var c, n: nat :| c in next && RootChain(refs, edges, e.parent, c, root, r, n);
      ChainApart(refs, x, edges, e.parent, c, root, r, n);
      assert Refers(more, e, c, Name(s)) && Name(s) in iris;
      assert RootChain(more, edges, e.child, Name(s), root, r, n + 1);
    }
  }

  // ----- exact on every store -----

  /** A hop with parents goes on with them and their type. */
  lemma HopOn(
      edges: seq<Edge>, planner: Planner, typeName: string, iris: seq<string>, root: string, hops: nat, p: string,
      parent: string)
    requires typeName != root && hops > 0
    requires var hop := HopOver(Inbound(edges, typeName), planner, typeName, iris, root);
      p in hop.next && hop.nextType == Some(parent)
    ensures ClimbFrom(edges, planner, typeName, iris, root, hops).0 ==
            ClimbFrom(edges, planner, parent, HopOver(Inbound(edges, typeName), planner, typeName, iris, root).next,
                      root, hops - 1).0
  {
  }

  lemma ForkedClimb(
      refs: seq<Reference>, edges: seq<Edge>, typeName: string, root: string, i: nat, j: nat, es1: seq<Edge>,
      es2: seq<Edge>, s: nat, iris: seq<string>, hops: nat) returns (next: seq<string>)
    requires var inbound := Inbound(edges, typeName);
      && i < |inbound| && j < |inbound| && Preferred(inbound, root, i, j)
      && IsForked(refs, inbound[i], inbound[j], es1, es2, s)
    requires Named(edges) && Distinct(edges) && Just(iris, Name(s)) && typeName != root && hops > 0
    ensures forall p :: p in next <==> p == Name(s + 1) || p == Name(s + 2)
    ensures ClimbFrom(edges, PlannerOf(refs), typeName, iris, root, hops).0 ==
            ClimbFrom(edges, PlannerOf(refs), Inbound(edges, typeName)[i].parent, next, root, hops - 1).0
  {
    ForkedHop(refs, edges, typeName, root, i, j, es1, es2, s, iris);
    next := HopOver(Inbound(edges, typeName), PlannerOf(refs), typeName, iris, root).next;
    HopOn(edges, PlannerOf(refs), typeName, iris, root, hops, Name(s + 1), Inbound(edges, typeName)[i].parent);
  }

  /** Exactly the first roots above the given entities are returned. */
  ghost predicate ExactOnFirst(refs: seq<Reference>, edges: seq<Edge>, typeName: string, root: string, maxHops: nat)
  {
    forall iris, r :: r in AffectedRoots(edges, PlannerOf(refs), typeName, iris, root, maxHops) <==>
                      FirstRootFrom(refs, edges, typeName, iris, root, r)
  }

  ghost predicate Wrong(
      refs: seq<Reference>, edges: seq<Edge>, typeName: string, s: nat, root: string, hops: nat, r: string)
  {
    forall iris :: Just(iris, Name(s)) ==>
      (r in ClimbFrom(edges, PlannerOf(refs), typeName, iris, root, hops).0) != FirstRootFrom(refs, edges, typeName, iris, root, r)
  }

  /** A route longer than the hops is not climbed. */
  lemma TooFar(edges: seq<Edge>, typeName: string, es: seq<Edge>, root: string, s: nat, hops: nat)
    returns (refs: seq<Reference>, r: string)
    requires Named(edges) && TypeRoute(edges, typeName, root, es) && |es| > hops
    ensures Above(refs, s) && Wrong(refs, edges, typeName, s, root, hops, r)
  {
    refs, r := Route(es, Name(s), s + 1), End(es, Name(s), s + 1);
    forall x | x in refs ensures |x.child| >= s && |x.parent| > s { RouteNames(es, Name(s), s + 1, x); }
    StoreHolds(refs, es, Name(s), s + 1);
    RouteDepends(refs, edges, typeName, es, root, Name(s), s + 1);
    forall iris | Just(iris, Name(s))
      ensures (r in ClimbFrom(edges, PlannerOf(refs), typeName, iris, root, hops).0)
              != FirstRootFrom(refs, edges, typeName, iris, root, r)
    {
      assert Name(s) in iris;
      RouteClimbs(refs, edges, typeName, es, root, Name(s), s + 1, iris, hops);
    }
  }

  /**
   * When the preferred parent type leads to the root, the climb goes on from the other parent
   * as well, and returns what only a mistyped reference leads to.
   */
  lemma Mistyped(
      edges: seq<Edge>, typeName: string, i: nat, j: nat, es: seq<Edge>, root: string, s: nat, hops: nat)
    returns (refs: seq<Reference>, r: string)
    requires Named(edges) && Distinct(edges) && typeName != root && |es| < hops
    requires var inbound := Inbound(edges, typeName);
      && i < |inbound| && j < |inbound| && Preferred(inbound, root, i, j) && inbound[i].parent != inbound[j].parent
      && TypeRoute(edges, inbound[i].parent, root, es)
    ensures Above(refs, s) && Wrong(refs, edges, typeName, s, root, hops, r)
  {
    var e1, e2 := Inbound(edges, typeName)[i], Inbound(edges, typeName)[j];
    refs, r := Forked(e1, e2, [], es, s), End(es, Name(s + 2), s + 3);
    ForkedIsForked(e1, e2, [], es, s);
    forall iris | Just(iris, Name(s))
      ensures (r in ClimbFrom(edges, PlannerOf(refs), typeName, iris, root, hops).0)
              != FirstRootFrom(refs, edges, typeName, iris, root, r)
    {
      MistypedFrom(refs, edges, typeName, i, j, es, root, s, hops, iris);
    }
  }

  lemma MistypedFrom(
      refs: seq<Reference>, edges: seq<Edge>, typeName: string, i: nat, j: nat, es: seq<Edge>, root: string, s: nat,
      hops: nat, iris: seq<string>)
    requires Named(edges) && Distinct(edges) && typeName != root && |es| < hops && Just(iris, Name(s))
    requires var inbound := Inbound(edges, typeName);
      && i < |inbound| && j < |inbound| && Preferred(inbound, root, i, j) && inbound[i].parent != inbound[j].parent
      && TypeRoute(edges, inbound[i].parent, root, es) && IsForked(refs, inbound[i], inbound[j], [], es, s)
    ensures End(es, Name(s + 2), s + 3) in ClimbFrom(edges, PlannerOf(refs), typeName, iris, root, hops).0
    ensures !FirstRootFrom(refs, edges, typeName, iris, root, End(es, Name(s + 2), s + 3))
  {
    var e1, e2, r := Inbound(edges, typeName)[i], Inbound(edges, typeName)[j], End(es, Name(s + 2), s + 3);
    InboundExact(edges, typeName, e1);
    InboundExact(edges, typeName, e2);
    assert !Leads(refs, edges, e1.parent, Name(s + 1), root, r) by {
      EndName(es, Name(s + 2), s + 3);
      if e1.parent != root { NoMatchNoRoot(refs, edges, e1.parent, root, Name(s + 1), r); }
    }
    assert !Leads(refs, edges, e2.parent, Name(s + 2), root, r) by {
      WrongType(refs, edges, e1.parent, es, root, Name(s + 2), s + 3, e2.parent);
      NoMatchNoRoot(refs, edges, e2.parent, root, Name(s + 2), r);
    }
    ForkedDepends(refs, edges, typeName, root, e1, e2, [], es, s, iris, r);
    var next := ForkedClimb(refs, edges, typeName, root, i, j, [], es, s, iris, hops);
    MistypedAbove(refs, edges, e1.parent, es, root, s, next, hops - 1);
  }

  lemma MistypedAbove(
      refs: seq<Reference>, edges: seq<Edge>, typeName: string, es: seq<Edge>, root: string, s: nat, next: seq<string>,
      hops: nat)
    requires Named(edges) && TypeRoute(edges, typeName, root, es) && |es| <= hops
    requires Holds(refs, [], Name(s + 1), s + 3) && Holds(refs, es, Name(s + 2), s + 3)
    requires forall p :: p in next <==> p == Name(s + 1) || p == Name(s + 2)
    ensures End(es, Name(s + 2), s + 3) in ClimbFrom(edges, PlannerOf(refs), typeName, next, root, hops).0
  {
    RouteClimbs(refs, edges, typeName, es, root, Name(s + 2), s + 3, next, hops);
  }

  /** When the preferred parent type is a dead end, the root above the other parent is lost. */
  lemma Abandoned(
      edges: seq<Edge>, typeName: string, i: nat, j: nat, es: seq<Edge>, root: string, s: nat, hops: nat)
    returns (refs: seq<Reference>, r: string)
    requires Named(edges) && Distinct(edges) && typeName != root && hops > 0
    requires var inbound := Inbound(edges, typeName);
      && i < |inbound| && j < |inbound| && Preferred(inbound, root, i, j) && inbound[i].parent != inbound[j].parent
      && inbound[i].parent != root && TypeRoute(edges, inbound[j].parent, root, es)
    ensures Above(refs, s) && Wrong(refs, edges, typeName, s, root, hops, r)
  {
    var e1, e2 := Inbound(edges, typeName)[i], Inbound(edges, typeName)[j];
    refs, r := Forked(e1, e2, [], es, s), End(es, Name(s + 2), s + 3);
    ForkedIsForked(e1, e2, [], es, s);
    forall iris | Just(iris, Name(s))
      ensures (r in ClimbFrom(edges, PlannerOf(refs), typeName, iris, root, hops).0)
              != FirstRootFrom(refs, edges, typeName, iris, root, r)
    {
      AbandonedFrom(refs, edges, typeName, i, j, es, root, s, hops, iris);
    }
  }

  lemma AbandonedFrom(
      refs: seq<Reference>, edges: seq<Edge>, typeName: string, i: nat, j: nat, es: seq<Edge>, root: string, s: nat,
      hops: nat, iris: seq<string>)
    requires Named(edges) && Distinct(edges) && typeName != root && hops > 0 && Just(iris, Name(s))
    requires var inbound := Inbound(edges, typeName);
      && i < |inbound| && j < |inbound| && Preferred(inbound, root, i, j) && inbound[i].parent != inbound[j].parent
      && inbound[i].parent != root && TypeRoute(edges, inbound[j].parent, root, es)
      && IsForked(refs, inbound[i], inbound[j], [], es, s)
    ensures ClimbFrom(edges, PlannerOf(refs), typeName, iris, root, hops).0 == []
    ensures FirstRootFrom(refs, edges, typeName, iris, root, End(es, Name(s + 2), s + 3))
  {
    var e1, e2 := Inbound(edges, typeName)[i], Inbound(edges, typeName)[j];
    InboundExact(edges, typeName, e1);
    InboundExact(edges, typeName, e2);
    var next := ForkedClimb(refs, edges, typeName, root, i, j, [], es, s, iris, hops);
    WrongType(refs, edges, e2.parent, es, root, Name(s + 2), s + 3, e1.parent);
    NoMatchNoHop(refs, edges, e1.parent, next, root, hops - 1);
    ForkedLeads(refs, edges, typeName, root, e1, e2, [], es, s, iris);
  }

  /** With no single line to the root within the hops, some store leads the climb astray. */
  lemma {:induction false} WrongSomewhere(
      edges: seq<Edge>, typeName: string, es: seq<Edge>, root: string, s: nat, hops: nat)
    returns (refs: seq<Reference>, r: string)
    requires Named(edges) && Distinct(edges) && TypeRoute(edges, typeName, root, es)
    requires forall k: nat :: k <= hops ==> !SingleLine(edges, typeName, root, k)
    ensures Above(refs, s) && Wrong(refs, edges, typeName, s, root, hops, r)
    decreases hops
  {
    assert typeName != root by { assert !SingleLine(edges, typeName, root, 0); }
    if |es| > hops {
      refs, r := TooFar(edges, typeName, es, root, s, hops);
    } else if SingleParent(edges, typeName, es[0].parent) {
      forall k: nat | k <= hops - 1 ensures !SingleLine(edges, es[0].parent, root, k) {
        assert !SingleLine(edges, typeName, root, k + 1);
      }
      var rest;
      rest, r := WrongSomewhere(edges, es[0].parent, es[1..], root, s + 1, hops - 1);
      refs := WrongBelow(rest, edges, es[0], root, s, hops, r);
    } else {
      var i, j := TwoParentTypes(edges, typeName, es[0], root);
      var inbound := Inbound(edges, typeName);
      if inbound[i].parent == root {
        refs, r := Mistyped(edges, typeName, i, j, [], root, s, hops);
      } else if i <= j {
        refs, r := Mistyped(edges, typeName, i, j, es[1..], root, s, hops);
      } else {
        refs, r := Abandoned(edges, typeName, j, i, es[1..], root, s, hops);
      }
    }
  }

  lemma WrongBelow(
      rest: seq<Reference>, edges: seq<Edge>, e: Edge, root: string, s: nat, hops: nat, r: string)
    returns (refs: seq<Reference>)
    requires Named(edges) && e in edges && e.child != root && Above(rest, s + 1) && hops > 0
    requires Wrong(rest, edges, e.parent, s + 1, root, hops - 1, r)
    ensures Above(refs, s) && Wrong(refs, edges, e.child, s, root, hops, r)
  {
    refs := rest + [Reference(e.parent, Name(s + 1), e.property, Name(s))];
    assert Just([Name(s)], Name(s));
    var some := Prepended(rest, edges, e, root, s, [Name(s)], hops, r);
    forall iris | Just(iris, Name(s))
      ensures (r in ClimbFrom(edges, PlannerOf(refs), e.child, iris, root, hops).0)
              != FirstRootFrom(refs, edges, e.child, iris, root, r)
    {
      var next := Prepended(rest, edges, e, root, s, iris, hops, r);
    }
  }

  /** Two inbound edges of different parent types: the first is from the root type if any is, else it is e. */
  lemma TwoParentTypes(edges: seq<Edge>, typeName: string, e: Edge, root: string) returns (i: nat, j: nat)
    requires e in edges && e.child == typeName && !SingleParent(edges, typeName, e.parent)
    ensures var inbound := Inbound(edges, typeName);
      && i < |inbound| && j < |inbound| && inbound[i].parent != inbound[j].parent
      && (inbound[i].parent == root || (inbound[i] == e && inbound[j].parent != root))
  {
    var inbound := Inbound(edges, typeName);
    var f :| f in edges && f.child == typeName && f.parent != e.parent;
    InboundExact(edges, typeName, e);
    InboundExact(edges, typeName, f);
    i :| 0 <= i < |inbound| && inbound[i] == e;
    j :| 0 <= j < |inbound| && inbound[j] == f;
    if f.parent == root { i, j := j, i; }
  }

  lemma {:induction false} NoAncestorNoRoot(
      edges: seq<Edge>, planner: Planner, typeName: string, iris: seq<string>, root: string, hops: nat)
    requires !Ancestor(edges, typeName, root)
    ensures ClimbFrom(edges, planner, typeName, iris, root, hops).0 == []
    decreases hops
  {
    assert typeName != root by { if typeName == root { assert TypeRoute(edges, typeName, root, []); } }
    if hops > 0 {
      var inbound := Inbound(edges, typeName);
      var hop := HopOver(inbound, planner, typeName, iris, root);
      if hop.nextType.Some? {
        var i := HopTaken(inbound, planner, typeName, iris, root);
        InboundExact(edges, typeName, inbound[i]);
        NoAncestorAbove(edges, inbound[i], root);
        NoAncestorNoRoot(edges, planner, inbound[i].parent, hop.next, root, hops - 1);
      }
    }
  }

  lemma NoAncestorAbove(edges: seq<Edge>, e: Edge, root: string)
    requires e in edges && e.child != root && !Ancestor(edges, e.child, root)
    ensures !Ancestor(edges, e.parent, root)
  {
    if es :| TypeRoute(edges, e.parent, root, es) {
      assert ([e] + es)[1..] == es;
      assert TypeRoute(edges, e.child, root, [e] + es);
    }
  }

  ghost predicate LineWithin(edges: seq<Edge>, typeName: string, root: string, hops: nat)
  {
    exists k: nat :: k <= hops && SingleLine(edges, typeName, root, k)
  }

  /**
   * On every store exactly the first roots above the entities are returned, if and only if the
   * root type is no ancestor type at all, or a single line of parent types leads to it within
   * the hops.
   */
  lemma FirstExactIff(edges: seq<Edge>, typeName: string, root: string, maxHops: nat)
    requires Named(edges) && Distinct(edges)
    ensures (forall refs :: ExactOnFirst(refs, edges, typeName, root, maxHops)) <==>
            !Ancestor(edges, typeName, root) || LineWithin(edges, typeName, root, maxHops)
  {
    if !Ancestor(edges, typeName, root) {
      forall refs ensures ExactOnFirst(refs, edges, typeName, root, maxHops) {
        ExactWithoutAncestor(refs, edges, typeName, root, maxHops);
      }
    } else if LineWithin(edges, typeName, root, maxHops) {
      var k: nat :| k <= maxHops && SingleLine(edges, typeName, root, k);
      forall refs ensures ExactOnFirst(refs, edges, typeName, root, maxHops) {
        PlannerOfIsExact(refs, edges);
        forall iris, r ensures r in AffectedRoots(edges, PlannerOf(refs), typeName, iris, root, maxHops) <==>
                               FirstRootFrom(refs, edges, typeName, iris, root, r)
        {
          AffectedRootsExact(refs, edges, PlannerOf(refs), typeName, iris, root, maxHops, k);
        }
      }
    } else {
      var es :| TypeRoute(edges, typeName, root, es);
      var refs, r := WrongSomewhere(edges, typeName, es, root, 0, maxHops);
      var iris := [Name(0)];
      assert Uniq(iris) == iris by { assert Add([], iris) == Add([Name(0)], []); }
      assert Just(iris, Name(0));
      assert !ExactOnFirst(refs, edges, typeName, root, maxHops);
    }
  }

  lemma ExactWithoutAncestor(refs: seq<Reference>, edges: seq<Edge>, typeName: string, root: string, maxHops: nat)
    requires !Ancestor(edges, typeName, root)
    ensures ExactOnFirst(refs, edges, typeName, root, maxHops)
  {
    forall iris, r ensures r in AffectedRoots(edges, PlannerOf(refs), typeName, iris, root, maxHops) <==>
                           FirstRootFrom(refs, edges, typeName, iris, root, r)
    {
      NoAncestorNoRoot(edges, PlannerOf(refs), typeName, Uniq(iris), root, maxHops);
      if FirstRootFrom(refs, edges, typeName, iris, root, r) {
        var c, n: nat :| c in iris && RootChain(refs, edges, typeName, c, root, r, n);
        FirstRootAncestor(refs, edges, typeName, c, root, r, n);
      }
    }
  }

  // ----- roots above roots -----

  /** A chain of edges up to the root type, perhaps through it. */
  ghost predicate Linked(edges: seq<Edge>, typeName: string, root: string, es: seq<Edge>)
    decreases |es|
  {
    if es == [] then typeName == root
    else es[0] in edges && es[0].child == typeName && Linked(edges, es[0].parent, root, es[1..])
  }

  lemma {:induction false} RoutesLink(
      edges: seq<Edge>, typeName: string, root: string, es: seq<Edge>, e: Edge, more: seq<Edge>)
    requires TypeRoute(edges, typeName, root, es) && e in edges && e.child == root
    requires TypeRoute(edges, e.parent, root, more)
    ensures Linked(edges, typeName, root, es + [e] + more)
    decreases |es|
  {
    if es == [] {
      RouteLinks(edges, e.parent, root, more);
      assert ([] + [e] + more)[1..] == more;
    } else {
      assert (es + [e] + more)[1..] == es[1..] + [e] + more;
      RoutesLink(edges, es[0].parent, root, es[1..], e, more);
    }
  }

  lemma {:induction false} RouteLinks(edges: seq<Edge>, typeName: string, root: string, es: seq<Edge>)
    requires TypeRoute(edges, typeName, root, es)
    ensures Linked(edges, typeName, root, es)
    decreases |es|
  {
    if es != [] { RouteLinks(edges, es[0].parent, root, es[1..]); }
  }

  lemma {:induction false} LinkedDepends(
      refs: seq<Reference>, edges: seq<Edge>, typeName: string, es: seq<Edge>, root: string, start: string, s: nat)
    requires Linked(edges, typeName, root, es) && Along(refs, es, start, s)
    ensures TypedChain(refs, edges, typeName, start, root, End(es, start, s), |es|)
    decreases |es|
  {
    if es != [] {
      LinkedDepends(refs, edges, es[0].parent, es[1..], root, Name(s), s + 1);
      assert Refers(refs, es[0], Name(s), start);
    }
  }

  /** When roots can depend on roots: a store with two roots above an entity, of which the climb finds the first at most. */
  lemma SecondRoot(edges: seq<Edge>, typeName: string, root: string, es: seq<Edge>, hops: nat)
    returns (refs: seq<Reference>, r: string)
    requires Named(edges) && OwnAncestor(edges, root) && TypeRoute(edges, typeName, root, es)
    ensures DependsOn(refs, edges, typeName, [Name(0)], root, r)
    ensures r !in ClimbFrom(edges, PlannerOf(refs), typeName, [Name(0)], root, hops).0
    ensures |es| <= hops ==> ClimbFrom(edges, PlannerOf(refs), typeName, [Name(0)], root, hops).0 != []
  {
    var e :| e in edges && e.child == root && Ancestor(edges, e.parent, root);
    var more :| TypeRoute(edges, e.parent, root, more);
    var all := es + [e] + more;
    refs, r := Route(all, Name(0), 1), End(all, Name(0), 1);
    assert Along(refs, es, Name(0), 1) && Along(refs, all, Name(0), 1) by {
      StoreHolds(refs, all, Name(0), 1);
      assert all + [] == all && es + ([e] + more) == all;
      HoldsAlong(refs, all, [], Name(0), 1);
      HoldsAlong(refs, es, [e] + more, Name(0), 1);
    }
    RoutesLink(edges, typeName, root, es, e, more);
    LinkedDepends(refs, edges, typeName, all, root, Name(0), 1);
    assert Name(0) in [Name(0)];
    FirstOfTwo(refs, edges, typeName, root, es, all, hops);
  }

  lemma FirstOfTwo(
      refs: seq<Reference>, edges: seq<Edge>, typeName: string, root: string, es: seq<Edge>, all: seq<Edge>, hops: nat)
    requires Named(edges) && TypeRoute(edges, typeName, root, es) && Along(refs, es, Name(0), 1) && |all| > |es|
    ensures End(all, Name(0), 1) !in ClimbFrom(edges, PlannerOf(refs), typeName, [Name(0)], root, hops).0
    ensures |es| <= hops ==> ClimbFrom(edges, PlannerOf(refs), typeName, [Name(0)], root, hops).0 != []
  {
    EndName(all, Name(0), 1);
    EndName(es, Name(0), 1);
    if es != [] {
      AlongClimbs(refs, edges, typeName, es, root, Name(0), 1, [Name(0)], hops);
      if |es| <= hops {
        assert End(es, Name(0), 1) in ClimbFrom(edges, PlannerOf(refs), typeName, [Name(0)], root, hops).0;
      }
    }
  }

  lemma UniqOne(iri: string)
    ensures Uniq([iri]) == [iri]
  {
    assert Add([], [iri]) == Add([iri], []);
  }

  /**
   * On every store exactly the dependent roots are returned, if and only if the root type is no
   * ancestor type at all, or a single line of parent types leads to it within the hops and it
   * is not its own ancestor.
   */
  lemma ExactIff(edges: seq<Edge>, typeName: string, root: string, maxHops: nat)
    requires Named(edges) && Distinct(edges)
    ensures (forall refs :: ExactOn(refs, edges, typeName, root, maxHops)) <==>
            !Ancestor(edges, typeName, root) || (LineWithin(edges, typeName, root, maxHops) && !OwnAncestor(edges, root))
  {
    if !Ancestor(edges, typeName, root) {
      forall refs ensures ExactOn(refs, edges, typeName, root, maxHops) {
        NothingToFind(refs, edges, typeName, root, maxHops);
      }
    } else if OwnAncestor(edges, root) {
      var es :| TypeRoute(edges, typeName, root, es);
      var refs, r := SecondRoot(edges, typeName, root, es, maxHops);
      UniqOne(Name(0));
      assert !ExactOn(refs, edges, typeName, root, maxHops);
    } else {
      FirstExactIff(edges, typeName, root, maxHops);
      forall refs
        ensures ExactOn(refs, edges, typeName, root, maxHops) <==> ExactOnFirst(refs, edges, typeName, root, maxHops)
      {
        forall iris, r ensures DependsOn(refs, edges, typeName, iris, root, r) <==>
                               FirstRootFrom(refs, edges, typeName, iris, root, r)
        {
          DependsIffFirst(refs, edges, typeName, iris, root, r);
        }
      }
    }
  }

  lemma NothingToFind(refs: seq<Reference>, edges: seq<Edge>, typeName: string, root: string, maxHops: nat)
    requires !Ancestor(edges, typeName, root)
    ensures ExactOn(refs, edges, typeName, root, maxHops)
  {
    forall iris, r ensures r !in AffectedRoots(edges, PlannerOf(refs), typeName, iris, root, maxHops)
                        && !DependsOn(refs, edges, typeName, iris, root, r)
    {
      NoAncestorNoRoot(edges, PlannerOf(refs), typeName, Uniq(iris), root, maxHops);
      NoDependents(refs, edges, typeName, iris, root, r);
    }
  }

  lemma NoDependents(
      refs: seq<Reference>, edges: seq<Edge>, typeName: string, iris: seq<string>, root: string, r: string)
    requires !Ancestor(edges, typeName, root)
    ensures !DependsOn(refs, edges, typeName, iris, root, r)
  {
    if c, n: nat :| c in iris && TypedChain(refs, edges, typeName, c, root, r, n) {
      TypedAncestor(refs, edges, typeName, c, root, r, n);
    }
  }

  /**
   * For a type the root refers to directly: if and only if nothing but the root type refers to
   * it, and the root type is not its own ancestor.
   */
  lemma DirectChildExactIff(edges: seq<Edge>, typeName: string, root: string, maxHops: nat)
    requires typeName != root && maxHops > 0 && Named(edges) && Distinct(edges)
    requires exists e :: e in edges && e.child == typeName && e.parent == root
    ensures (forall refs :: ExactOn(refs, edges, typeName, root, maxHops)) <==>
            SingleParent(edges, typeName, root) && !OwnAncestor(edges, root)
  {
    var e :| e in edges && e.child == typeName && e.parent == root;
    assert TypeRoute(edges, root, root, []);
    assert [e][1..] == [];
    assert TypeRoute(edges, typeName, root, [e]);
    if SingleParent(edges, typeName, root) {
      assert SingleLine(edges, root, root, 0);
      assert SingleLine(edges, typeName, root, 1);
    }
    if k: nat :| k <= maxHops && SingleLine(edges, typeName, root, k) {
      var p :| SingleParent(edges, typeName, p) && SingleLine(edges, p, root, k - 1);
      assert p == root;
    }
    ExactIff(edges, typeName, root, maxHops);
  }

  // ----- the edges of a schema -----

  /** Keys of an object: every definition has its own name, and every property of it. */
  ghost predicate Keyed(defs: seq<Definition>)
  {
    && (forall i, j :: 0 <= i < j < |defs| ==> defs[i].typeName != defs[j].typeName)
    && (forall d :: d in defs ==> KeyedProperties(d.properties))
  }

  ghost predicate KeyedProperties(properties: seq<(string, PropertySchema)>)
  {
    forall i, j :: 0 <= i < j < |properties| ==> properties[i].0 != properties[j].0
  }

  lemma {:induction false} PropertyEdgesNamed(parent: string, properties: seq<(string, PropertySchema)>, e: Edge)
    requires e in PropertyEdges(parent, properties)
    ensures e.parent == parent && exists i :: 0 <= i < |properties| && properties[i].0 == e.property
  {
    var n := |properties| - 1;
    if e in PropertyEdges(parent, properties[..n]) {
      PropertyEdgesNamed(parent, properties[..n], e);
      var i :| 0 <= i < n && properties[..n][i].0 == e.property;
      assert properties[i].0 == e.property;
    } else {
      assert properties[n].0 == e.property;
    }
  }

  lemma {:induction false} PropertyEdgesDistinct(parent: string, properties: seq<(string, PropertySchema)>)
    requires KeyedProperties(properties)
    ensures Distinct(PropertyEdges(parent, properties))
  {
    if properties != [] {
      var n := |properties| - 1;
      PropertyEdgesDistinct(parent, properties[..n]);
      forall e | e in PropertyEdges(parent, properties[..n]) ensures e.property != properties[n].0 {
        PropertyEdgesNamed(parent, properties[..n], e);
      }
    }
  }

  lemma {:induction false} EdgesNamed(defs: seq<Definition>, e: Edge)
    requires e in EdgesOf(defs)
    ensures exists i :: 0 <= i < |defs| && defs[i].typeName == e.parent
  {
    var n := |defs| - 1;
    if e in EdgesOf(defs[..n]) {
      EdgesNamed(defs[..n], e);
      var i :| 0 <= i < n && defs[..n][i].typeName == e.parent;
      assert defs[i].typeName == e.parent;
    } else {
      PropertyEdgesNamed(defs[n].typeName, defs[n].properties, e);
    }
  }

  lemma DistinctConcat(a: seq<Edge>, b: seq<Edge>)
    requires Distinct(a) && Distinct(b) && forall e, f :: e in a && f in b ==> e.parent != f.parent
    ensures Distinct(a + b)
  {
  }

  /** The edges of any schema are distinct. */
  lemma {:induction false} EdgesDistinct(defs: seq<Definition>)
    requires Keyed(defs)
    ensures Distinct(EdgesOf(defs))
  {
    if defs != [] {
      var n := |defs| - 1;
      EdgesDistinct(defs[..n]);
      PropertyEdgesDistinct(defs[n].typeName, defs[n].properties);
      forall e, f | e in EdgesOf(defs[..n]) && f in PropertyEdges(defs[n].typeName, defs[n].properties)
        ensures e.parent != f.parent
      {
        EdgesNamed(defs[..n], e);
        PropertyEdgesNamed(defs[n].typeName, defs[n].properties, f);
      }
      DistinctConcat(EdgesOf(defs[..n]), PropertyEdges(defs[n].typeName, defs[n].properties));
    }
  }
}
