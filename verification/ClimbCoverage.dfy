/**
 * Which schemas let the climb (packages/calc-engine/src/delta.ts:108-162) return some of the
 * dependent roots and leave out others. The handler takes an empty result for "every root",
 * so only such a result loses a root.
 */
module ClimbCoverage {
  import opened Json
  import opened Climb
  import opened ClimbLimits

  /**
   * Two parent types of the type both have the root among their ancestors, and the one the hop
   * prefers reaches it within the hops that remain.
   */
  ghost predicate Fork(edges: seq<Edge>, typeName: string, root: string, hops: nat, i: int, j: int)
  {
    var inbound := Inbound(edges, typeName);
    && 0 <= i < |inbound| && 0 <= j < |inbound|
    && inbound[i].parent != inbound[j].parent && Preferred(inbound, root, i, j)
    && Reaches(edges, inbound[i].parent, root, hops - 1) && Ancestor(edges, inbound[j].parent, root)
  }

  /** No fork at the type, nor further up within the hops. */
  ghost predicate Unforked(edges: seq<Edge>, typeName: string, root: string, hops: nat)
    decreases hops
  {
    typeName != root && hops > 0 ==>
      && (forall i, j :: !Fork(edges, typeName, root, hops, i, j))
      && forall e :: e in edges && e.child == typeName ==> Unforked(edges, e.parent, root, hops - 1)
  }

  lemma {:induction false} FoundReaches(
      edges: seq<Edge>, planner: Planner, typeName: string, iris: seq<string>, root: string, hops: nat)
    requires ClimbFrom(edges, planner, typeName, iris, root, hops).0 != []
    ensures Reaches(edges, typeName, root, hops)
    decreases hops
  {
    if typeName == root {
      assert TypeRoute(edges, typeName, root, []);
    } else {
      var inbound := Inbound(edges, typeName);
      var hop := HopOver(inbound, planner, typeName, iris, root);
      var i := HopTaken(inbound, planner, typeName, iris, root);
      InboundExact(edges, typeName, inbound[i]);
      FoundReaches(edges, planner, inbound[i].parent, hop.next, root, hops - 1);
      var es :| TypeRoute(edges, inbound[i].parent, root, es) && |es| <= hops - 1;
      assert ([inbound[i]] + es)[1..] == es;
      assert TypeRoute(edges, typeName, root, [inbound[i]] + es);
    }
  }

  lemma {:induction false} UnforkedCovers(
      refs: seq<Reference>, edges: seq<Edge>, planner: Planner, typeName: string, iris: seq<string>, root: string,
      hops: nat, r: string)
    requires PlannerExact(refs, planner, edges) && Unforked(edges, typeName, root, hops)
    requires FirstRootFrom(refs, edges, typeName, iris, root, r)
    ensures var roots := ClimbFrom(edges, planner, typeName, iris, root, hops).0; roots == [] || r in roots
    decreases hops
  {
    if typeName != root && ClimbFrom(edges, planner, typeName, iris, root, hops).0 != [] {
      var inbound := Inbound(edges, typeName);
      var hop := HopOver(inbound, planner, typeName, iris, root);
      var i := HopTaken(inbound, planner, typeName, iris, root);
      InboundExact(edges, typeName, inbound[i]);
      FoundReaches(edges, planner, inbound[i].parent, hop.next, root, hops - 1);
      var e, p := LastStep(refs, edges, planner, typeName, iris, root, r);
      if e.parent == inbound[i].parent {
        UnforkedCovers(refs, edges, planner, e.parent, hop.next, root, hops - 1, r);
      } else {
        var j :| 0 <= j < |inbound| && inbound[j] == e;
        assert Found(inbound, planner, typeName, iris, j);
        var n: nat :| RootChain(refs, edges, e.parent, p, root, r, n);
        FirstRootAncestor(refs, edges, e.parent, p, root, r, n);
        assert Fork(edges, typeName, root, hops, i, j);
      }
    }
  }

  /** A dependency goes through some parent that the hop finds. */
  lemma LastStep(
      refs: seq<Reference>, edges: seq<Edge>, planner: Planner, typeName: string, iris: seq<string>, root: string,
      r: string) returns (e: Edge, p: string)
    requires PlannerExact(refs, planner, edges) && typeName != root
    requires FirstRootFrom(refs, edges, typeName, iris, root, r)
    ensures e in Inbound(edges, typeName) && p in planner(typeName, iris, e.parent, e.property)
    ensures Leads(refs, edges, e.parent, p, root, r)
    ensures FirstRootFrom(refs, edges, e.parent, HopOver(Inbound(edges, typeName), planner, typeName, iris, root).next, root, r)
  {
    var inbound := Inbound(edges, typeName);
    var c, n: nat :| c in iris && RootChain(refs, edges, typeName, c, root, r, n);
    e, p :| e in edges && e.child == typeName && Refers(refs, e, p, c)
            && RootChain(refs, edges, e.parent, p, root, r, n - 1);
    forall f ensures f in inbound <==> f in edges && f.child == typeName { InboundExact(edges, typeName, f); }
    assert RefersToSome(refs, e.parent, p, e.property, iris);
    HopExact(refs, edges, inbound, planner, typeName, iris, root, p);
    assert StepsTo(refs, inbound, iris, p);
  }

  // ----- every fork loses a root -----

  ghost predicate Lost(
      refs: seq<Reference>, edges: seq<Edge>, typeName: string, s: nat, root: string, hops: nat, r: string)
  {
    forall iris :: Just(iris, Name(s)) ==>
      && ClimbFrom(edges, PlannerOf(refs), typeName, iris, root, hops).0 != []
      && r !in ClimbFrom(edges, PlannerOf(refs), typeName, iris, root, hops).0
      && FirstRootFrom(refs, edges, typeName, iris, root, r)
  }

  /** The roots above the parents of the other type are lost. */
  lemma LostAtFork(edges: seq<Edge>, typeName: string, root: string, s: nat, hops: nat, i: int, j: int)
    returns (refs: seq<Reference>, r: string)
    requires Named(edges) && Distinct(edges) && typeName != root && hops > 0
    requires Fork(edges, typeName, root, hops, i, j)
    ensures Above(refs, s) && Lost(refs, edges, typeName, s, root, hops, r)
  {
    var e1, e2 := Inbound(edges, typeName)[i], Inbound(edges, typeName)[j];
    var es1 :| TypeRoute(edges, e1.parent, root, es1) && |es1| <= hops - 1;
    var es2 :| TypeRoute(edges, e2.parent, root, es2);
    refs, r := Forked(e1, e2, es1, es2, s), End(es2, Name(s + 2), s + 3 + |es1|);
    ForkedIsForked(e1, e2, es1, es2, s);
    forall iris | Just(iris, Name(s))
      ensures ClimbFrom(edges, PlannerOf(refs), typeName, iris, root, hops).0 != []
      ensures r !in ClimbFrom(edges, PlannerOf(refs), typeName, iris, root, hops).0
      ensures FirstRootFrom(refs, edges, typeName, iris, root, r)
    {
      LostFrom(refs, edges, typeName, root, s, hops, i, j, es1, es2, iris);
    }
  }

  lemma LostClimb(
      refs: seq<Reference>, edges: seq<Edge>, typeName: string, root: string, s: nat, hops: nat, i: int, j: int,
      es1: seq<Edge>, es2: seq<Edge>, iris: seq<string>)
    requires Named(edges) && Distinct(edges) && typeName != root && hops > 0 && |es1| <= hops - 1 && Just(iris, Name(s))
    requires var inbound := Inbound(edges, typeName);
      && 0 <= i < |inbound| && 0 <= j < |inbound|
      && inbound[i].parent != inbound[j].parent && Preferred(inbound, root, i, j)
      && TypeRoute(edges, inbound[i].parent, root, es1) && TypeRoute(edges, inbound[j].parent, root, es2)
      && IsForked(refs, inbound[i], inbound[j], es1, es2, s)
    ensures var r := End(es2, Name(s + 2), s + 3 + |es1|);
      && ClimbFrom(edges, PlannerOf(refs), typeName, iris, root, hops).0 != []
      && r !in ClimbFrom(edges, PlannerOf(refs), typeName, iris, root, hops).0
  {
    var e1, e2 := Inbound(edges, typeName)[i], Inbound(edges, typeName)[j];
    var next := ForkedClimb(refs, edges, typeName, root, i, j, es1, es2, s, iris, hops);
    LostAbove(refs, edges, e1, e2, es1, es2, root, s, next, hops - 1);
  }

  lemma LostFrom(
      refs: seq<Reference>, edges: seq<Edge>, typeName: string, root: string, s: nat, hops: nat, i: int, j: int,
      es1: seq<Edge>, es2: seq<Edge>, iris: seq<string>)
    requires Named(edges) && Distinct(edges) && typeName != root && hops > 0 && |es1| <= hops - 1 && Just(iris, Name(s))
    requires var inbound := Inbound(edges, typeName);
      && 0 <= i < |inbound| && 0 <= j < |inbound|
      && inbound[i].parent != inbound[j].parent && Preferred(inbound, root, i, j)
      && TypeRoute(edges, inbound[i].parent, root, es1) && TypeRoute(edges, inbound[j].parent, root, es2)
      && IsForked(refs, inbound[i], inbound[j], es1, es2, s)
    ensures var r := End(es2, Name(s + 2), s + 3 + |es1|);
      && ClimbFrom(edges, PlannerOf(refs), typeName, iris, root, hops).0 != []
      && r !in ClimbFrom(edges, PlannerOf(refs), typeName, iris, root, hops).0
      && FirstRootFrom(refs, edges, typeName, iris, root, r)
  {
    var e1, e2 := Inbound(edges, typeName)[i], Inbound(edges, typeName)[j];
    InboundExact(edges, typeName, e1);
    InboundExact(edges, typeName, e2);
    LostClimb(refs, edges, typeName, root, s, hops, i, j, es1, es2, iris);
    ForkedLeads(refs, edges, typeName, root, e1, e2, es1, es2, s, iris);
  }

  lemma LostAbove(
      refs: seq<Reference>, edges: seq<Edge>, e1: Edge, e2: Edge, es1: seq<Edge>, es2: seq<Edge>, root: string, s: nat,
      next: seq<string>, hops: nat)
    requires Named(edges) && Distinct(edges) && |es1| <= hops && e1.parent != e2.parent && e2.parent != root
    requires TypeRoute(edges, e1.parent, root, es1) && TypeRoute(edges, e2.parent, root, es2)
    requires IsForked(refs, e1, e2, es1, es2, s)
    requires forall p :: p in next <==> p == Name(s + 1) || p == Name(s + 2)
    ensures var r := End(es2, Name(s + 2), s + 3 + |es1|);
      && ClimbFrom(edges, PlannerOf(refs), e1.parent, next, root, hops).0 != []
      && r !in ClimbFrom(edges, PlannerOf(refs), e1.parent, next, root, hops).0
  {
    var t := s + 3 + |es1|;
    assert Name(s + 1) in next;
    EndName(es1, Name(s + 1), s + 3);
    EndName(es2, Name(s + 2), t);
    WrongType(refs, edges, e2.parent, es2, root, Name(s + 2), t, e1.parent);
    RouteClimbs(refs, edges, e1.parent, es1, root, Name(s + 1), s + 3, next, hops);
    if es1 != [] {
      assert End(es1, Name(s + 1), s + 3) in ClimbFrom(edges, PlannerOf(refs), e1.parent, next, root, hops).0;
    }
  }

  lemma {:induction false} LostSomewhere(edges: seq<Edge>, typeName: string, root: string, s: nat, hops: nat)
    returns (refs: seq<Reference>, r: string)
    requires Named(edges) && Distinct(edges) && !Unforked(edges, typeName, root, hops)
    ensures Above(refs, s) && Lost(refs, edges, typeName, s, root, hops, r)
    decreases hops
  {
    if i, j :| Fork(edges, typeName, root, hops, i, j) {
      refs, r := LostAtFork(edges, typeName, root, s, hops, i, j);
    } else {
      var e :| e in edges && e.child == typeName && !Unforked(edges, e.parent, root, hops - 1);
      var rest;
      rest, r := LostSomewhere(edges, e.parent, root, s + 1, hops - 1);
      refs := LostBelow(rest, edges, e, root, s, hops, r);
    }
  }

  lemma LostBelow(
      rest: seq<Reference>, edges: seq<Edge>, e: Edge, root: string, s: nat, hops: nat, r: string)
    returns (refs: seq<Reference>)
    requires Named(edges) && e in edges && e.child != root && Above(rest, s + 1) && hops > 0
    requires Lost(rest, edges, e.parent, s + 1, root, hops - 1, r)
    ensures Above(refs, s) && Lost(refs, edges, e.child, s, root, hops, r)
  {
    refs := rest + [Reference(e.parent, Name(s + 1), e.property, Name(s))];
    assert Just([Name(s)], Name(s));
    var some := Prepended(rest, edges, e, root, s, [Name(s)], hops, r);
    forall iris | Just(iris, Name(s))
      ensures ClimbFrom(edges, PlannerOf(refs), e.child, iris, root, hops).0 != []
      ensures r !in ClimbFrom(edges, PlannerOf(refs), e.child, iris, root, hops).0
      ensures FirstRootFrom(refs, edges, e.child, iris, root, r)
    {
      var next := Prepended(rest, edges, e, root, s, iris, hops, r);
    }
  }

  /** A climb that returns roots at all returns every first root above the entity. */
  ghost predicate FirstOrNone(
      refs: seq<Reference>, edges: seq<Edge>, typeName: string, iri: string, root: string, hops: nat)
  {
    forall r :: FirstRootFrom(refs, edges, typeName, [iri], root, r) ==>
      var roots := AffectedRoots(edges, PlannerOf(refs), typeName, [iri], root, hops);
      roots == [] || r in roots
  }

  /** On every store the climb returns all first roots above an entity or none, if and only if the schema has no fork. */
  lemma FirstOrNoneIff(edges: seq<Edge>, typeName: string, root: string, hops: nat)
    requires Named(edges) && Distinct(edges)
    ensures (forall refs, iri :: FirstOrNone(refs, edges, typeName, iri, root, hops)) <==>
            Unforked(edges, typeName, root, hops)
  {
    if Unforked(edges, typeName, root, hops) {
      forall refs, iri ensures FirstOrNone(refs, edges, typeName, iri, root, hops) {
        PlannerOfIsExact(refs, edges);
        UniqOne(iri);
        forall r | FirstRootFrom(refs, edges, typeName, [iri], root, r)
          ensures var roots := AffectedRoots(edges, PlannerOf(refs), typeName, [iri], root, hops);
            roots == [] || r in roots
        {
          UnforkedCovers(refs, edges, PlannerOf(refs), typeName, [iri], root, hops, r);
        }
      }
    } else {
      var refs, r := LostSomewhere(edges, typeName, root, 0, hops);
      UniqOne(Name(0));
      assert Just([Name(0)], Name(0));
      assert !FirstOrNone(refs, edges, typeName, Name(0), root, hops);
    }
  }

  /** A climb that returns roots at all returns every dependent one. */
  ghost predicate AllOrNone(
      refs: seq<Reference>, edges: seq<Edge>, typeName: string, iri: string, root: string, hops: nat)
  {
    forall r :: DependsOn(refs, edges, typeName, [iri], root, r) ==>
      var roots := AffectedRoots(edges, PlannerOf(refs), typeName, [iri], root, hops);
      roots == [] || r in roots
  }

  /** The climb can find a root, and there are roots that depend on roots. */
  ghost predicate StopsShort(edges: seq<Edge>, typeName: string, root: string, hops: nat)
  {
    Reaches(edges, typeName, root, hops) && OwnAncestor(edges, root)
  }

  /**
   * On every store the climb returns all dependent roots or none, if and only if the schema has
   * no fork, and the climb does not stop at a root below others.
   */
  lemma AllOrNoneIff(edges: seq<Edge>, typeName: string, root: string, hops: nat)
    requires Named(edges) && Distinct(edges)
    ensures (forall refs, iri :: AllOrNone(refs, edges, typeName, iri, root, hops)) <==>
            Unforked(edges, typeName, root, hops) && !StopsShort(edges, typeName, root, hops)
  {
    FirstOrNoneIff(edges, typeName, root, hops);
    if StopsShort(edges, typeName, root, hops) {
      StoppingLoses(edges, typeName, root, hops);
    } else if Unforked(edges, typeName, root, hops) {
      forall refs, iri ensures AllOrNone(refs, edges, typeName, iri, root, hops) {
        if OwnAncestor(edges, root) {
          UnreachedIsNone(refs, edges, typeName, iri, root, hops);
        } else {
          SameRoots(refs, edges, typeName, iri, root, hops);
        }
      }
    } else {
      var refs, iri :| !FirstOrNone(refs, edges, typeName, iri, root, hops);
      LosesFirst(refs, edges, typeName, iri, root, hops);
    }
  }

  lemma StoppingLoses(edges: seq<Edge>, typeName: string, root: string, hops: nat)
    requires Named(edges) && StopsShort(edges, typeName, root, hops)
    ensures exists refs, iri :: !AllOrNone(refs, edges, typeName, iri, root, hops)
  {
    var es :| TypeRoute(edges, typeName, root, es) && |es| <= hops;
    var refs, r := SecondRoot(edges, typeName, root, es, hops);
    UniqOne(Name(0));
    assert !AllOrNone(refs, edges, typeName, Name(0), root, hops);
  }

  lemma UnreachedIsNone(
      refs: seq<Reference>, edges: seq<Edge>, typeName: string, iri: string, root: string, hops: nat)
    requires !Reaches(edges, typeName, root, hops)
    ensures AffectedRoots(edges, PlannerOf(refs), typeName, [iri], root, hops) == []
  {
    if AffectedRoots(edges, PlannerOf(refs), typeName, [iri], root, hops) != [] {
      FoundReaches(edges, PlannerOf(refs), typeName, Uniq([iri]), root, hops);
    }
  }

  lemma SameRoots(refs: seq<Reference>, edges: seq<Edge>, typeName: string, iri: string, root: string, hops: nat)
    requires !OwnAncestor(edges, root) && FirstOrNone(refs, edges, typeName, iri, root, hops)
    ensures AllOrNone(refs, edges, typeName, iri, root, hops)
  {
    forall r | DependsOn(refs, edges, typeName, [iri], root, r)
      ensures FirstRootFrom(refs, edges, typeName, [iri], root, r)
    {
      DependsIffFirst(refs, edges, typeName, [iri], root, r);
    }
  }

  lemma LosesFirst(refs: seq<Reference>, edges: seq<Edge>, typeName: string, iri: string, root: string, hops: nat)
    requires !FirstOrNone(refs, edges, typeName, iri, root, hops)
    ensures !AllOrNone(refs, edges, typeName, iri, root, hops)
  {
    var roots := AffectedRoots(edges, PlannerOf(refs), typeName, [iri], root, hops);
    var r :| FirstRootFrom(refs, edges, typeName, [iri], root, r) && roots != [] && r !in roots;
    FirstDepends(refs, edges, typeName, [iri], root, r);
  }

  lemma {:induction false} UnforkedWithoutRoot(edges: seq<Edge>, typeName: string, root: string, hops: nat)
    requires !Ancestor(edges, typeName, root)
    ensures Unforked(edges, typeName, root, hops)
    decreases hops
  {
    if typeName != root && hops > 0 {
      forall e | e in edges && e.child == typeName
        ensures !Ancestor(edges, e.parent, root) && Unforked(edges, e.parent, root, hops - 1)
      {
        NoAncestorAbove(edges, e, root);
        UnforkedWithoutRoot(edges, e.parent, root, hops - 1);
      }
      forall i, j ensures !Fork(edges, typeName, root, hops, i, j) {
        var inbound := Inbound(edges, typeName);
        if 0 <= j < |inbound| { InboundExact(edges, typeName, inbound[j]); }
      }
    }
  }

  /** A schema in which every type has one parent type has no fork. */
  lemma {:induction false} OneParentUnforked(edges: seq<Edge>, typeName: string, root: string, hops: nat)
    requires forall e, f :: e in edges && f in edges && e.child == f.child ==> e.parent == f.parent
    ensures Unforked(edges, typeName, root, hops)
    decreases hops
  {
    if typeName != root && hops > 0 {
      forall i, j ensures !Fork(edges, typeName, root, hops, i, j) {
        var inbound := Inbound(edges, typeName);
        if 0 <= i < |inbound| && 0 <= j < |inbound| {
          InboundExact(edges, typeName, inbound[i]);
          InboundExact(edges, typeName, inbound[j]);
        }
      }
      forall e | e in edges && e.child == typeName ensures Unforked(edges, e.parent, root, hops - 1) {
        OneParentUnforked(edges, e.parent, root, hops - 1);
      }
    }
  }

  /** A direct child of the root has a fork exactly if another parent type has the root among its ancestors. */
  lemma DirectChildUnforkedIff(edges: seq<Edge>, typeName: string, root: string, hops: nat)
    requires typeName != root && hops > 0
    requires exists e :: e in edges && e.child == typeName && e.parent == root
    ensures Unforked(edges, typeName, root, hops) <==>
            forall e :: e in edges && e.child == typeName && e.parent != root ==> !Ancestor(edges, e.parent, root)
  {
    var inbound := Inbound(edges, typeName);
    forall e ensures e in inbound <==> e in edges && e.child == typeName { InboundExact(edges, typeName, e); }
    if Unforked(edges, typeName, root, hops) {
      var d :| d in edges && d.child == typeName && d.parent == root;
      assert TypeRoute(edges, root, root, []);
      var i :| 0 <= i < |inbound| && inbound[i] == d;
      forall e | e in edges && e.child == typeName && e.parent != root ensures !Ancestor(edges, e.parent, root) {
        var j :| 0 <= j < |inbound| && inbound[j] == e;
        assert !Fork(edges, typeName, root, hops, i, j);
      }
    }
    if forall e :: e in edges && e.child == typeName && e.parent != root ==> !Ancestor(edges, e.parent, root) {
      forall e | e in edges && e.child == typeName ensures Unforked(edges, e.parent, root, hops - 1) {
        if e.parent != root { UnforkedWithoutRoot(edges, e.parent, root, hops - 1); }
      }
      forall i, j ensures !Fork(edges, typeName, root, hops, i, j) {
        if 0 <= i < |inbound| && 0 <= j < |inbound| {
          NotReached(edges, inbound[i].parent, root, hops - 1);
        }
      }
    }
  }

  lemma NotReached(edges: seq<Edge>, typeName: string, root: string, hops: int)
    ensures Reaches(edges, typeName, root, hops) ==> Ancestor(edges, typeName, root)
  {
  }
}
