/** From a changed entity up to the roots that depend on it (packages/calc-engine/src/delta.ts:40-162). */
module Climb {
  import opened Json

  /** The part of a property schema that `refTypeName` looks at. */
  datatype PropertySchema =
    | NoSchema
    | Ref(name: string)
    | ArrayOf(items: PropertySchema)
    | OtherSchema

  datatype Definition = Definition(typeName: string, properties: seq<(string, PropertySchema)>)

  datatype Edge = Edge(parent: string, child: string, property: string)

  function RefTypeName(schema: PropertySchema): Option<string>
  {
    match schema
    case Ref(name) => if name == "" then None else Some(name)
    case ArrayOf(items) => RefTypeName(items)
    case _ => None
  }

  function PropertyEdges(parent: string, properties: seq<(string, PropertySchema)>): seq<Edge>
  {
    if properties == [] then []
    else
      var n := |properties| - 1;
      var child := RefTypeName(properties[n].1);
      PropertyEdges(parent, properties[..n])
      + if child.Some? then [Edge(parent, child.value, properties[n].0)] else []
  }

  function EdgesOf(defs: seq<Definition>): seq<Edge>
  {
    if defs == [] then []
    else
      var n := |defs| - 1;
      EdgesOf(defs[..n]) + PropertyEdges(defs[n].typeName, defs[n].properties)
  }

  /** `discoverRelationEdges` */
  method DiscoverRelationEdges(defs: seq<Definition>) returns (edges: seq<Edge>)
    ensures edges == EdgesOf(defs)
  {
    edges := [];
    for k := 0 to |defs|
      invariant edges == EdgesOf(defs[..k])
    {
      assert defs[..k + 1][..k] == defs[..k];
      ghost var before := edges;
      var properties := defs[k].properties;
      for j := 0 to |properties|
        invariant edges == before + PropertyEdges(defs[k].typeName, properties[..j])
      {
        assert properties[..j + 1][..j] == properties[..j];
        var child := RefTypeName(properties[j].1);
        if child.None? { continue; }
        edges := edges + [Edge(defs[k].typeName, child.value, properties[j].0)];
      }
      assert properties[..|properties|] == properties;
    }
    assert defs[..|defs|] == defs;
  }

  lemma {:induction false} PropertyEdgesExact(parent: string, properties: seq<(string, PropertySchema)>, e: Edge)
    ensures e in PropertyEdges(parent, properties) <==>
            e.parent == parent && exists p :: p in properties && p.0 == e.property && RefTypeName(p.1) == Some(e.child)
  {
    if properties != [] {
      var n := |properties| - 1;
      assert properties == properties[..n] + [properties[n]];
      PropertyEdgesExact(parent, properties[..n], e);
      if p :| p in properties[..n] && p.0 == e.property && RefTypeName(p.1) == Some(e.child) { assert p in properties; }
      if properties[n].0 == e.property && RefTypeName(properties[n].1) == Some(e.child) {
        assert properties[n] in properties;
      }
    }
  }

  /** A reference to a definition below some number of arrays. */
  function Nested(name: string, depth: nat): PropertySchema
  {
    if depth == 0 then Ref(name) else ArrayOf(Nested(name, depth - 1))
  }

  lemma {:induction false} NestedHasType(name: string, depth: nat)
    ensures RefTypeName(Nested(name, depth)) == if name == "" then None else Some(name)
  {
    if depth > 0 { NestedHasType(name, depth - 1); }
  }

  lemma {:induction false} TypeIsNested(schema: PropertySchema, name: string) returns (depth: nat)
    requires RefTypeName(schema) == Some(name)
    ensures name != "" && schema == Nested(name, depth)
  {
    if schema.ArrayOf? {
      var below := TypeIsNested(schema.items, name);
      depth := below + 1;
    } else {
      depth := 0;
    }
  }

  /** The property of the definition refers to the child type, directly or in arrays. */
  ghost predicate DefinesEdge(d: Definition, p: (string, PropertySchema), e: Edge)
  {
    && p in d.properties && d.typeName == e.parent && p.0 == e.property
    && e.child != "" && exists depth: nat :: p.1 == Nested(e.child, depth)
  }

  lemma DefinesIff(d: Definition, p: (string, PropertySchema), e: Edge)
    ensures DefinesEdge(d, p, e) <==>
            p in d.properties && d.typeName == e.parent && p.0 == e.property && RefTypeName(p.1) == Some(e.child)
  {
    if RefTypeName(p.1) == Some(e.child) { var depth := TypeIsNested(p.1, e.child); }
    if depth: nat :| p.1 == Nested(e.child, depth) { NestedHasType(e.child, depth); }
  }

  /** An edge for each property that refers to a type, through any number of arrays, and no other. */
  lemma {:induction false} EdgesExact(defs: seq<Definition>, e: Edge)
    ensures e in EdgesOf(defs) <==> exists d, p :: d in defs && DefinesEdge(d, p, e)
  {
    if defs != [] {
      var n := |defs| - 1;
      assert defs == defs[..n] + [defs[n]];
      EdgesExact(defs[..n], e);
      PropertyEdgesExact(defs[n].typeName, defs[n].properties, e);
      if d, p :| d in defs[..n] && DefinesEdge(d, p, e) {
        assert d in defs && DefinesEdge(d, p, e);
      }
      if e in PropertyEdges(defs[n].typeName, defs[n].properties) {
        var p :| p in defs[n].properties && p.0 == e.property && RefTypeName(p.1) == Some(e.child);
        DefinesIff(defs[n], p, e);
        assert defs[n] in defs && DefinesEdge(defs[n], p, e);
      }
      if p :| DefinesEdge(defs[n], p, e) { DefinesIff(defs[n], p, e); }
    }
  }

  // ----- the climb -----

  /** `findParents(childTypeName, childIRIs, parentTypeName, edgeProperty)` */
  type Planner = (string, seq<string>, string, string) -> seq<string>

  /** Append what is not there yet. */
  function Add(s: seq<string>, more: seq<string>): seq<string>
    decreases |more|
  {
    if more == [] then s
    else Add(if more[0] in s then s else s + [more[0]], more[1..])
  }

  function Uniq(s: seq<string>): seq<string>
  {
    Add([], s)
  }

  function Inbound(edges: seq<Edge>, typeName: string): seq<Edge>
  {
    if edges == [] then []
    else
      var n := |edges| - 1;
      Inbound(edges[..n], typeName) + if edges[n].child == typeName then [edges[n]] else []
  }

  /** The parents found so far in one hop, and the type they are all taken to have. */
  datatype Hop = Hop(next: seq<string>, nextType: Option<string>)

  function HopOver(inbound: seq<Edge>, planner: Planner, typeName: string, iris: seq<string>, root: string): Hop
  {
    if inbound == [] then Hop([], None)
    else
      var n := |inbound| - 1;
      var before := HopOver(inbound[..n], planner, typeName, iris, root);
      var edge := inbound[n];
      var parents := planner(typeName, iris, edge.parent, edge.property);
      if parents == [] then before
      else Hop(Add(before.next, parents),
               if edge.parent == root || before.nextType.None? then Some(edge.parent) else before.nextType)
  }

  function ClimbFrom(edges: seq<Edge>, planner: Planner, typeName: string, iris: seq<string>, root: string, hops: nat)
    : (seq<string>, nat)
    decreases hops
  {
    if typeName == root then (iris, 0)
    else if hops == 0 then ([], 0)
    else
      var inbound := Inbound(edges, typeName);
      var hop := HopOver(inbound, planner, typeName, iris, root);
      if hop.next == [] || hop.nextType.None? then ([], |inbound|)
      else
        var (roots, queries) := ClimbFrom(edges, planner, hop.nextType.value, hop.next, root, hops - 1);
        (roots, |inbound| + queries)
  }

  function AffectedRoots(
      edges: seq<Edge>, planner: Planner, typeName: string, iris: seq<string>, root: string, maxHops: nat): seq<string>
  {
    ClimbFrom(edges, planner, typeName, Uniq(iris), root, maxHops).0
  }

  /** `climbAffectedRoots` */
  method ClimbAffectedRoots(
      edges: seq<Edge>, planner: Planner, childType: string, childIRIs: seq<string>, root: string, maxHops: nat)
    returns (rootIRIs: seq<string>, queriesIssued: nat)
    ensures (rootIRIs, queriesIssued) == ClimbFrom(edges, planner, childType, Uniq(childIRIs), root, maxHops)
  {
    var currentType, currentIRIs := childType, Uniq(childIRIs);
    queriesIssued := 0;
    ghost var whole := ClimbFrom(edges, planner, childType, Uniq(childIRIs), root, maxHops);
    for hop := 0 to maxHops
      invariant ClimbFrom(edges, planner, currentType, currentIRIs, root, maxHops - hop).0 == whole.0
      invariant queriesIssued + ClimbFrom(edges, planner, currentType, currentIRIs, root, maxHops - hop).1 == whole.1
    {
      if currentType == root { return currentIRIs, queriesIssued; }
      var inbound := Inbound(edges, currentType);
      if inbound == [] { return [], queriesIssued; }
      var next, nextType, queries := ClimbOneHop(inbound, planner, currentType, currentIRIs, root);
      queriesIssued := queriesIssued + queries;
      if next == [] || nextType.None? { return [], queriesIssued; }
      currentType, currentIRIs := nextType.value, next;
    }
    rootIRIs := if currentType == root then currentIRIs else [];
  }

  /** The inner loop: one `findParents` query per inbound edge. */
  method ClimbOneHop(inbound: seq<Edge>, planner: Planner, currentType: string, currentIRIs: seq<string>, root: string)
    returns (next: seq<string>, nextType: Option<string>, queries: nat)
    ensures Hop(next, nextType) == HopOver(inbound, planner, currentType, currentIRIs, root) && queries == |inbound|
  {
    next, nextType, queries := [], None, 0;
    for k := 0 to |inbound|
      invariant Hop(next, nextType) == HopOver(inbound[..k], planner, currentType, currentIRIs, root) && queries == k
    {
      assert inbound[..k + 1][..k] == inbound[..k];
      var edge := inbound[k];
      var parents := planner(currentType, currentIRIs, edge.parent, edge.property);
      queries := queries + 1;
      if parents == [] { continue; }
      next := Add(next, parents);
      if edge.parent == root || nextType.None? { nextType := Some(edge.parent); }
    }
    assert inbound[..|inbound|] == inbound;
  }

  // ----- references between entities -----

  /** One stored relation: `parent[property]` contains `child`. */
  datatype Reference = Reference(parentType: string, parent: string, property: string, child: string)

  ghost predicate RefersToSome(refs: seq<Reference>, parentType: string, parent: string, property: string, iris: seq<string>)
  {
    exists r :: r in refs && r.parentType == parentType && r.parent == parent && r.property == property && r.child in iris
  }

  /** The planner answers exactly from the stored references. */
  ghost predicate PlannerExact(refs: seq<Reference>, planner: Planner, edges: seq<Edge>)
  {
    forall e, t, iris, p :: e in edges ==>
      (p in planner(t, iris, e.parent, e.property) <==> RefersToSome(refs, e.parent, p, e.property, iris))
  }

  /** `createSparqlAffectedPlanner` over a list of references */
  function FindParents(refs: seq<Reference>, iris: seq<string>, parentType: string, property: string): seq<string>
  {
    if property == "" || iris == [] || refs == [] then []
    else
      var n := |refs| - 1;
      FindParents(refs[..n], iris, parentType, property)
      + if refs[n].parentType == parentType && refs[n].property == property && refs[n].child in iris
        then [refs[n].parent] else []
  }

  lemma {:induction false} FindParentsExact(
      refs: seq<Reference>, iris: seq<string>, parentType: string, property: string, p: string)
    requires property != ""
    ensures p in FindParents(refs, iris, parentType, property) <==> RefersToSome(refs, parentType, p, property, iris)
  {
    if refs != [] {
      var n := |refs| - 1;
      assert refs == refs[..n] + [refs[n]];
      FindParentsExact(refs[..n], iris, parentType, property, p);
      if RefersToSome(refs[..n], parentType, p, property, iris) {
        var r :| r in refs[..n] && r.parentType == parentType && r.parent == p && r.property == property && r.child in iris;
        assert r in refs;
      }
      if refs[n].parentType == parentType && refs[n].parent == p && refs[n].property == property && refs[n].child in iris {
        assert refs[n] in refs;
      }
    }
  }

  function PlannerOf(refs: seq<Reference>): Planner
  {
    (childType, iris, parentType, property) => FindParents(refs, iris, parentType, property)
  }

  lemma PlannerOfIsExact(refs: seq<Reference>, edges: seq<Edge>)
    requires forall e :: e in edges ==> e.property != ""
    ensures PlannerExact(refs, PlannerOf(refs), edges)
  {
    forall e, t, iris, p | e in edges
      ensures p in PlannerOf(refs)(t, iris, e.parent, e.property) <==> RefersToSome(refs, e.parent, p, e.property, iris)
    {
      FindParentsExact(refs, iris, e.parent, e.property, p);
    }
  }

  lemma {:induction false} AddMembers(s: seq<string>, more: seq<string>, x: string)
    ensures x in Add(s, more) <==> x in s || x in more
    decreases |more|
  {
    if more != [] {
      AddMembers(if more[0] in s then s else s + [more[0]], more[1..], x);
      assert more == [more[0]] + more[1..];
    }
  }

  lemma {:induction false} InboundExact(edges: seq<Edge>, typeName: string, e: Edge)
    ensures e in Inbound(edges, typeName) <==> e in edges && e.child == typeName
    ensures |Inbound(edges, typeName)| <= |edges|
  {
    if edges != [] {
      var n := |edges| - 1;
      assert edges == edges[..n] + [edges[n]];
      InboundExact(edges[..n], typeName, e);
    }
  }

  /** p refers to some of the IRIs along one of the edges. */
  ghost predicate StepsTo(refs: seq<Reference>, inbound: seq<Edge>, iris: seq<string>, p: string)
  {
    exists e :: e in inbound && RefersToSome(refs, e.parent, p, e.property, iris)
  }

  lemma {:induction false} HopExact(
      refs: seq<Reference>, edges: seq<Edge>, inbound: seq<Edge>, planner: Planner, typeName: string,
      iris: seq<string>, root: string, p: string)
    requires PlannerExact(refs, planner, edges) && forall e :: e in inbound ==> e in edges
    ensures p in HopOver(inbound, planner, typeName, iris, root).next <==> StepsTo(refs, inbound, iris, p)
  {
    if inbound != [] {
      var n := |inbound| - 1;
      assert inbound == inbound[..n] + [inbound[n]];
      HopExact(refs, edges, inbound[..n], planner, typeName, iris, root, p);
      var parents := planner(typeName, iris, inbound[n].parent, inbound[n].property);
      AddMembers(HopOver(inbound[..n], planner, typeName, iris, root).next, parents, p);
      if StepsTo(refs, inbound[..n], iris, p) {
        var e :| e in inbound[..n] && RefersToSome(refs, e.parent, p, e.property, iris);
        assert e in inbound;
      }
      if p in parents {
        assert inbound[n] in inbound;
      }
    }
  }

  lemma {:induction false} HopType(
      inbound: seq<Edge>, planner: Planner, typeName: string, iris: seq<string>, root: string)
    ensures var hop := HopOver(inbound, planner, typeName, iris, root);
      && (hop.next != [] ==> hop.nextType.Some?)
      && (hop.nextType.Some? ==> exists e :: e in inbound && e.parent == hop.nextType.value)
  {
    if inbound != [] {
      var n := |inbound| - 1;
      assert inbound == inbound[..n] + [inbound[n]];
      HopType(inbound[..n], planner, typeName, iris, root);
      var before := HopOver(inbound[..n], planner, typeName, iris, root).nextType;
      if before.Some? {
        var e :| e in inbound[..n] && e.parent == before.value;
        assert e in inbound;
      }
      assert inbound[n] in inbound;
    }
  }

  // ----- on any schema: sound and bounded -----

  /** r is reached from c by n references along schema edges. */
  ghost predicate Chain(refs: seq<Reference>, edges: seq<Edge>, c: string, r: string, n: nat)
    decreases n
  {
    if n == 0 then c == r
    else exists e, p :: e in edges && Refers(refs, e, p, c) && Chain(refs, edges, p, r, n - 1)
  }

  ghost predicate Refers(refs: seq<Reference>, e: Edge, parent: string, child: string)
  {
    Reference(e.parent, parent, e.property, child) in refs
  }

  ghost predicate ReachedFrom(refs: seq<Reference>, edges: seq<Edge>, iris: seq<string>, r: string, maxHops: nat)
  {
    exists c, n: nat :: c in iris && n <= maxHops && Chain(refs, edges, c, r, n)
  }

  lemma StepOrigin(refs: seq<Reference>, inbound: seq<Edge>, iris: seq<string>, p: string)
    ensures StepsTo(refs, inbound, iris, p) <==> exists e, c :: e in inbound && c in iris && Refers(refs, e, p, c)
  {
    if StepsTo(refs, inbound, iris, p) {
      var e :| e in inbound && RefersToSome(refs, e.parent, p, e.property, iris);
      var r :| r in refs && r.parentType == e.parent && r.parent == p && r.property == e.property && r.child in iris;
      assert r == Reference(e.parent, p, e.property, r.child);
      assert Refers(refs, e, p, r.child);
    }
    if e, c :| e in inbound && c in iris && Refers(refs, e, p, c) {
      assert RefersToSome(refs, e.parent, p, e.property, iris);
    }
  }

  lemma {:induction false} ClimbSound(
      refs: seq<Reference>, edges: seq<Edge>, planner: Planner, typeName: string, iris: seq<string>,
      root: string, hops: nat, r: string)
    requires PlannerExact(refs, planner, edges)
    requires r in ClimbFrom(edges, planner, typeName, iris, root, hops).0
    ensures ReachedFrom(refs, edges, iris, r, hops)
    decreases hops
  {
    if typeName == root {
      assert Chain(refs, edges, r, r, 0);
    } else {
      var inbound := Inbound(edges, typeName);
      forall e | e in inbound ensures e in edges { InboundExact(edges, typeName, e); }
      var hop := HopOver(inbound, planner, typeName, iris, root);
      ClimbSound(refs, edges, planner, hop.nextType.value, hop.next, root, hops - 1, r);
      var p, n: nat :| p in hop.next && n <= hops - 1 && Chain(refs, edges, p, r, n);
      HopExact(refs, edges, inbound, planner, typeName, iris, root, p);
      StepOrigin(refs, inbound, iris, p);
      var e, c :| e in inbound && c in iris && Refers(refs, e, p, c);
      assert Chain(refs, edges, c, r, n + 1);
    }
  }

  lemma {:induction false} ClimbBounded(
      edges: seq<Edge>, planner: Planner, typeName: string, iris: seq<string>, root: string, hops: nat)
    ensures ClimbFrom(edges, planner, typeName, iris, root, hops).1 <= hops * |edges|
    decreases hops
  {
    if typeName != root && hops > 0 {
      var inbound := Inbound(edges, typeName);
      InboundExact(edges, typeName, Edge("", "", ""));
      var hop := HopOver(inbound, planner, typeName, iris, root);
      assert hops * |edges| == (hops - 1) * |edges| + |edges|;
      assert 0 <= (hops - 1) * |edges|;
      if hop.next != [] && hop.nextType.Some? {
        ClimbBounded(edges, planner, hop.nextType.value, hop.next, root, hops - 1);
      }
    }
  }

  /**
   * Whatever the schema and the store: every returned IRI is reached from a given child
   * by at most maxHops references, and the number of queries does not depend on the store.
   */
  lemma AffectedRootsSound(
      refs: seq<Reference>, edges: seq<Edge>, planner: Planner, typeName: string, iris: seq<string>,
      root: string, maxHops: nat)
    requires PlannerExact(refs, planner, edges)
    ensures forall r :: r in AffectedRoots(edges, planner, typeName, iris, root, maxHops) ==>
              ReachedFrom(refs, edges, iris, r, maxHops)
    ensures ClimbFrom(edges, planner, typeName, Uniq(iris), root, maxHops).1 <= maxHops * |edges|
  {
    forall r | r in AffectedRoots(edges, planner, typeName, iris, root, maxHops)
      ensures ReachedFrom(refs, edges, iris, r, maxHops)
    {
      ClimbSound(refs, edges, planner, typeName, Uniq(iris), root, maxHops, r);
      var c, n: nat :| c in Uniq(iris) && n <= maxHops && Chain(refs, edges, c, r, n);
      AddMembers([], iris, c);
    }
    ClimbBounded(edges, planner, typeName, Uniq(iris), root, maxHops);
  }

  ghost function EdgesInto(edges: seq<Edge>, typeName: string): set<int>
  {
    set i | 0 <= i < |edges| && edges[i].child == typeName
  }

  ghost function AllEdgesInto(edges: seq<Edge>, types: seq<string>): nat
  {
    if types == [] then 0 else |EdgesInto(edges, types[0])| + AllEdgesInto(edges, types[1..])
  }

  lemma {:induction false} InboundCount(edges: seq<Edge>, typeName: string)
    ensures |Inbound(edges, typeName)| == |EdgesInto(edges, typeName)|
  {
    if edges != [] {
      var n := |edges| - 1;
      InboundCount(edges[..n], typeName);
      var before := EdgesInto(edges[..n], typeName);
      assert EdgesInto(edges, typeName) == before + if edges[n].child == typeName then {n} else {};
      assert n !in before;
    }
  }

  /** The types a climb goes through: each is the parent type of an edge into the one before. */
  ghost predicate ClimbsThrough(edges: seq<Edge>, types: seq<string>)
  {
    forall i :: 0 <= i < |types| - 1 ==> StepsUp(edges, types[i], types[i + 1])
  }

  ghost predicate StepsUp(edges: seq<Edge>, child: string, parent: string)
  {
    exists e :: e in edges && e.child == child && e.parent == parent
  }

  /** A climb asks the planner once for every edge into each type it goes through, and no more. */
  lemma {:induction false} ClimbQueries(
      edges: seq<Edge>, planner: Planner, typeName: string, iris: seq<string>, root: string, hops: nat)
    returns (types: seq<string>)
    ensures ClimbFrom(edges, planner, typeName, iris, root, hops).1 == AllEdgesInto(edges, types)
    ensures |types| <= hops && root !in types && ClimbsThrough(edges, types)
    ensures if typeName == root || hops == 0 then types == [] else types != [] && types[0] == typeName
    ensures ClimbFrom(edges, planner, typeName, iris, root, hops).0 != [] && types != [] ==>
              StepsUp(edges, types[|types| - 1], root)
    decreases hops
  {
    types := [];
    if typeName != root && hops > 0 {
      var inbound := Inbound(edges, typeName);
      var hop := HopOver(inbound, planner, typeName, iris, root);
      InboundCount(edges, typeName);
      types := [typeName];
      if hop.next != [] && hop.nextType.Some? {
        HopType(inbound, planner, typeName, iris, root);
        var e :| e in inbound && e.parent == hop.nextType.value;
        InboundExact(edges, typeName, e);
        assert StepsUp(edges, typeName, hop.nextType.value);
        var rest := ClimbQueries(edges, planner, hop.nextType.value, hop.next, root, hops - 1);
        types := [typeName] + rest;
        assert types[1..] == rest;
        forall i | 0 <= i < |types| - 1 ensures StepsUp(edges, types[i], types[i + 1]) {
          if i > 0 { assert StepsUp(edges, rest[i - 1], rest[i]); }
        }
      } else {
        assert types[1..] == [];
      }
    }
  }

  // ----- one parent type per step: exact -----

  /** The root type is k steps up, and every step has inbound edges from a single parent type. */
  ghost predicate SingleLine(edges: seq<Edge>, typeName: string, root: string, k: nat)
    decreases k
  {
    if k == 0 then typeName == root
    else typeName != root && exists p :: SingleParent(edges, typeName, p) && SingleLine(edges, p, root, k - 1)
  }

  ghost predicate SingleParent(edges: seq<Edge>, typeName: string, parent: string)
  {
    && (exists e :: e in edges && e.child == typeName)
    && forall e :: e in edges && e.child == typeName ==> e.parent == parent
  }

  // ----- which roots depend on an entity -----

  /** A chain of n typed references leads from the root r down to c, perhaps through other entities of the root type. */
  ghost predicate TypedChain(
      refs: seq<Reference>, edges: seq<Edge>, typeName: string, c: string, root: string, r: string, n: nat)
    decreases n
  {
    if n == 0 then typeName == root && c == r
    else
      exists e, p :: e in edges && e.child == typeName && Refers(refs, e, p, c)
                  && TypedChain(refs, edges, e.parent, p, root, r, n - 1)
  }

  /** The root r refers to one of the entities, directly or not. */
  ghost predicate DependsOn(
      refs: seq<Reference>, edges: seq<Edge>, typeName: string, iris: seq<string>, root: string, r: string)
  {
    exists c, n: nat :: c in iris && TypedChain(refs, edges, typeName, c, root, r, n)
  }

  /** A way through the schema from a type up to the root type. */
  ghost predicate TypeRoute(edges: seq<Edge>, typeName: string, root: string, es: seq<Edge>)
    decreases |es|
  {
    if es == [] then typeName == root
    else typeName != root && es[0] in edges && es[0].child == typeName && TypeRoute(edges, es[0].parent, root, es[1..])
  }

  /** The root type is among the ancestor types. */
  ghost predicate Ancestor(edges: seq<Edge>, typeName: string, root: string)
  {
    exists es :: TypeRoute(edges, typeName, root, es)
  }

  /** The root type is its own proper ancestor: roots can depend on roots. */
  ghost predicate OwnAncestor(edges: seq<Edge>, root: string)
  {
    exists e :: e in edges && e.child == root && Ancestor(edges, e.parent, root)
  }

  /** r is the first entity of the root type on a chain of n typed references from c. */
  ghost predicate RootChain(
      refs: seq<Reference>, edges: seq<Edge>, typeName: string, c: string, root: string, r: string, n: nat)
    decreases n
  {
    if n == 0 then typeName == root && c == r
    else
      typeName != root &&
      exists e, p :: e in edges && e.child == typeName && Refers(refs, e, p, c)
                  && RootChain(refs, edges, e.parent, p, root, r, n - 1)
  }

  ghost predicate FirstRootFrom(
      refs: seq<Reference>, edges: seq<Edge>, typeName: string, iris: seq<string>, root: string, r: string)
  {
    exists c, n: nat :: c in iris && RootChain(refs, edges, typeName, c, root, r, n)
  }

  lemma {:induction false} FirstRootAncestor(
      refs: seq<Reference>, edges: seq<Edge>, typeName: string, c: string, root: string, r: string, n: nat)
    requires RootChain(refs, edges, typeName, c, root, r, n)
    ensures Ancestor(edges, typeName, root)
    decreases n
  {
    if n == 0 {
      assert TypeRoute(edges, typeName, root, []);
    } else {
      var e, p :| e in edges && e.child == typeName && Refers(refs, e, p, c)
                  && RootChain(refs, edges, e.parent, p, root, r, n - 1);
      FirstRootAncestor(refs, edges, e.parent, p, root, r, n - 1);
      var es :| TypeRoute(edges, e.parent, root, es);
      assert ([e] + es)[1..] == es;
      assert TypeRoute(edges, typeName, root, [e] + es);
    }
  }

  lemma {:induction false} FirstIsTyped(
      refs: seq<Reference>, edges: seq<Edge>, typeName: string, c: string, root: string, r: string, n: nat)
    requires RootChain(refs, edges, typeName, c, root, r, n)
    ensures TypedChain(refs, edges, typeName, c, root, r, n)
    decreases n
  {
    if n > 0 {
      var e, p :| e in edges && e.child == typeName && Refers(refs, e, p, c)
                  && RootChain(refs, edges, e.parent, p, root, r, n - 1);
      FirstIsTyped(refs, edges, e.parent, p, root, r, n - 1);
    }
  }

  lemma FirstDepends(
      refs: seq<Reference>, edges: seq<Edge>, typeName: string, iris: seq<string>, root: string, r: string)
    requires FirstRootFrom(refs, edges, typeName, iris, root, r)
    ensures DependsOn(refs, edges, typeName, iris, root, r)
  {
    var c, n: nat :| c in iris && RootChain(refs, edges, typeName, c, root, r, n);
    FirstIsTyped(refs, edges, typeName, c, root, r, n);
  }

  /** Every chain to a root begins with a way through the schema. */
  lemma {:induction false} TypedAncestor(
      refs: seq<Reference>, edges: seq<Edge>, typeName: string, c: string, root: string, r: string, n: nat)
    requires TypedChain(refs, edges, typeName, c, root, r, n)
    ensures Ancestor(edges, typeName, root)
    decreases n
  {
    if typeName == root {
      assert TypeRoute(edges, typeName, root, []);
    } else {
      var e, p :| e in edges && e.child == typeName && Refers(refs, e, p, c)
                  && TypedChain(refs, edges, e.parent, p, root, r, n - 1);
      TypedAncestor(refs, edges, e.parent, p, root, r, n - 1);
      var es :| TypeRoute(edges, e.parent, root, es);
      assert ([e] + es)[1..] == es;
      assert TypeRoute(edges, typeName, root, [e] + es);
    }
  }

  /** Unless the root type is its own ancestor, every chain ends at the first root. */
  lemma {:induction false} TypedIsFirst(
      refs: seq<Reference>, edges: seq<Edge>, typeName: string, c: string, root: string, r: string, n: nat)
    requires !OwnAncestor(edges, root) && TypedChain(refs, edges, typeName, c, root, r, n)
    ensures RootChain(refs, edges, typeName, c, root, r, n)
    decreases n
  {
    if n > 0 {
      var e, p :| e in edges && e.child == typeName && Refers(refs, e, p, c)
                  && TypedChain(refs, edges, e.parent, p, root, r, n - 1);
      TypedAncestor(refs, edges, e.parent, p, root, r, n - 1);
      TypedIsFirst(refs, edges, e.parent, p, root, r, n - 1);
    }
  }

  /** Then the roots that depend on an entity are the first ones above it. */
  lemma DependsIffFirst(
      refs: seq<Reference>, edges: seq<Edge>, typeName: string, iris: seq<string>, root: string, r: string)
    requires !OwnAncestor(edges, root)
    ensures DependsOn(refs, edges, typeName, iris, root, r) <==> FirstRootFrom(refs, edges, typeName, iris, root, r)
  {
    if DependsOn(refs, edges, typeName, iris, root, r) {
      var c, n: nat :| c in iris && TypedChain(refs, edges, typeName, c, root, r, n);
      TypedIsFirst(refs, edges, typeName, c, root, r, n);
    }
    if FirstRootFrom(refs, edges, typeName, iris, root, r) { FirstDepends(refs, edges, typeName, iris, root, r); }
  }

  /** One hop splits every dependency. */
  lemma DependsStep(
      refs: seq<Reference>, edges: seq<Edge>, typeName: string, iris: seq<string>, root: string, r: string,
      parent: string, next: seq<string>)
    requires typeName != root
    requires SingleParent(edges, typeName, parent)
    requires forall p :: p in next <==> StepsTo(refs, Inbound(edges, typeName), iris, p)
    ensures FirstRootFrom(refs, edges, typeName, iris, root, r) <==> FirstRootFrom(refs, edges, parent, next, root, r)
  {
    if FirstRootFrom(refs, edges, typeName, iris, root, r) {
      var c, n: nat :| c in iris && RootChain(refs, edges, typeName, c, root, r, n);
      var e, p :| e in edges && e.child == typeName && Refers(refs, e, p, c)
                  && RootChain(refs, edges, e.parent, p, root, r, n - 1);
      InboundExact(edges, typeName, e);
      StepOrigin(refs, Inbound(edges, typeName), iris, p);
      assert p in next;
    }
    if FirstRootFrom(refs, edges, parent, next, root, r) {
      var p, n: nat :| p in next && RootChain(refs, edges, parent, p, root, r, n);
      StepOrigin(refs, Inbound(edges, typeName), iris, p);
      var e, c :| e in Inbound(edges, typeName) && c in iris && Refers(refs, e, p, c);
      InboundExact(edges, typeName, e);
      assert RootChain(refs, edges, typeName, c, root, r, n + 1);
    }
  }

  lemma {:induction false} ClimbExact(
      refs: seq<Reference>, edges: seq<Edge>, planner: Planner, typeName: string, iris: seq<string>,
      root: string, hops: nat, k: nat, r: string)
    requires PlannerExact(refs, planner, edges) && SingleLine(edges, typeName, root, k) && k <= hops
    ensures r in ClimbFrom(edges, planner, typeName, iris, root, hops).0 <==>
            FirstRootFrom(refs, edges, typeName, iris, root, r)
    decreases hops
  {
    if k == 0 {
      if r in iris { assert RootChain(refs, edges, typeName, r, root, r, 0); }
    } else {
      var parent :| SingleParent(edges, typeName, parent) && SingleLine(edges, parent, root, k - 1);
      var hop := HopOver(Inbound(edges, typeName), planner, typeName, iris, root);
      HopToParent(refs, edges, planner, typeName, iris, root, parent);
      DependsStep(refs, edges, typeName, iris, root, r, parent, hop.next);
      if hop.next != [] {
        ClimbExact(refs, edges, planner, parent, hop.next, root, hops - 1, k - 1, r);
      }
    }
  }

  /** With one parent type, a hop finds all parents and names their type correctly. */
  lemma HopToParent(
      refs: seq<Reference>, edges: seq<Edge>, planner: Planner, typeName: string, iris: seq<string>, root: string,
      parent: string)
    requires PlannerExact(refs, planner, edges) && SingleParent(edges, typeName, parent)
    ensures var hop := HopOver(Inbound(edges, typeName), planner, typeName, iris, root);
      && (forall p :: p in hop.next <==> StepsTo(refs, Inbound(edges, typeName), iris, p))
      && (hop.next != [] ==> hop.nextType == Some(parent))
  {
    var inbound := Inbound(edges, typeName);
    forall e | e in inbound ensures e in edges && e.parent == parent { InboundExact(edges, typeName, e); }
    forall p ensures p in HopOver(inbound, planner, typeName, iris, root).next <==> StepsTo(refs, inbound, iris, p) {
      HopExact(refs, edges, inbound, planner, typeName, iris, root, p);
    }
    HopType(inbound, planner, typeName, iris, root);
  }

  lemma FirstRootsExact(
      refs: seq<Reference>, edges: seq<Edge>, planner: Planner, typeName: string, iris: seq<string>,
      root: string, maxHops: nat, k: nat, r: string)
    requires PlannerExact(refs, planner, edges) && SingleLine(edges, typeName, root, k) && k <= maxHops
    ensures r in AffectedRoots(edges, planner, typeName, iris, root, maxHops) <==>
            FirstRootFrom(refs, edges, typeName, iris, root, r)
  {
    ClimbExact(refs, edges, planner, typeName, Uniq(iris), root, maxHops, k, r);
    if FirstRootFrom(refs, edges, typeName, iris, root, r) {
      var c, n: nat :| c in iris && RootChain(refs, edges, typeName, c, root, r, n);
      AddMembers([], iris, c);
    }
    if FirstRootFrom(refs, edges, typeName, Uniq(iris), root, r) {
      var c, n: nat :| c in Uniq(iris) && RootChain(refs, edges, typeName, c, root, r, n);
      AddMembers([], iris, c);
    }
  }

  /**
   * Exact climb: on a line of single parent types within reach, exactly the first roots above
   * the given entities are returned. These are all the roots that depend on them, unless the
   * root type is its own ancestor.
   */
  lemma AffectedRootsExact(
      refs: seq<Reference>, edges: seq<Edge>, planner: Planner, typeName: string, iris: seq<string>,
      root: string, maxHops: nat, k: nat)
    requires PlannerExact(refs, planner, edges) && SingleLine(edges, typeName, root, k) && k <= maxHops
    ensures forall r :: r in AffectedRoots(edges, planner, typeName, iris, root, maxHops) <==>
                        FirstRootFrom(refs, edges, typeName, iris, root, r)
    ensures !OwnAncestor(edges, root) ==>
      forall r :: r in AffectedRoots(edges, planner, typeName, iris, root, maxHops) <==>
                  DependsOn(refs, edges, typeName, iris, root, r)
  {
    forall r ensures r in AffectedRoots(edges, planner, typeName, iris, root, maxHops) <==>
                     FirstRootFrom(refs, edges, typeName, iris, root, r)
    {
      FirstRootsExact(refs, edges, planner, typeName, iris, root, maxHops, k, r);
    }
    if !OwnAncestor(edges, root) {
      forall r ensures DependsOn(refs, edges, typeName, iris, root, r) <==>
                       FirstRootFrom(refs, edges, typeName, iris, root, r)
      {
        DependsIffFirst(refs, edges, typeName, iris, root, r);
      }
    }
  }

  // ----- why the hypothesis is needed -----

  ghost predicate ExactOn(refs: seq<Reference>, edges: seq<Edge>, typeName: string, root: string, maxHops: nat)
  {
    forall iris, r :: r in AffectedRoots(edges, PlannerOf(refs), typeName, iris, root, maxHops) <==>
                      DependsOn(refs, edges, typeName, iris, root, r)
  }

  /**
   * Further down, a second parent type can lose roots: when the type taken for all
   * parents leads nowhere, nothing is returned, whatever the other parents lead to.
   */
  lemma DeadEndHidesRoots(
      edges: seq<Edge>, planner: Planner, typeName: string, iris: seq<string>, root: string, maxHops: nat)
    requires typeName != root
    requires var taken := HopOver(Inbound(edges, typeName), planner, typeName, Uniq(iris), root).nextType;
      taken.Some? ==> taken.value != root && Inbound(edges, taken.value) == []
    ensures AffectedRoots(edges, planner, typeName, iris, root, maxHops) == []
  {
    if maxHops > 0 {
      var hop := HopOver(Inbound(edges, typeName), planner, typeName, Uniq(iris), root);
      if hop.next != [] && hop.nextType.Some? {
        assert HopOver([], planner, hop.nextType.value, hop.next, root) == Hop([], None);
        assert ClimbFrom(edges, planner, hop.nextType.value, hop.next, root, maxHops - 1).0 == [];
      }
    }
  }

  const GARDEN_EDGES := [Edge("Label", "Plot", "of"), Edge("Patch", "Plot", "plots"), Edge("Garden", "Patch", "patch")]

  const GARDEN_REFS := [Reference("Label", "l", "of", "p"), Reference("Patch", "t", "plots", "p"),
                        Reference("Garden", "g", "patch", "t")]

  lemma GardenDependsOnPlot()
    ensures DependsOn(GARDEN_REFS, GARDEN_EDGES, "Plot", ["p"], "Garden", "g")
  {
    assert GARDEN_EDGES[1] in GARDEN_EDGES && GARDEN_EDGES[2] in GARDEN_EDGES;
    assert GARDEN_REFS[1] in GARDEN_REFS && GARDEN_REFS[2] in GARDEN_REFS;
    assert Refers(GARDEN_REFS, GARDEN_EDGES[2], "g", "t") && Refers(GARDEN_REFS, GARDEN_EDGES[1], "t", "p");
    assert TypedChain(GARDEN_REFS, GARDEN_EDGES, "Garden", "g", "Garden", "g", 0);
    assert TypedChain(GARDEN_REFS, GARDEN_EDGES, "Patch", "t", "Garden", "g", 1);
    assert TypedChain(GARDEN_REFS, GARDEN_EDGES, "Plot", "p", "Garden", "g", 2);
  }

  lemma InboundCases(a: Edge, b: Edge, c: Edge, typeName: string)
    ensures Inbound([a, b, c], typeName) ==
      (if a.child == typeName then [a] else []) + (if b.child == typeName then [b] else [])
      + (if c.child == typeName then [c] else [])
  {
    assert [a, b, c][..2] == [a, b] && [a, b][..1] == [a] && [a][..0] == [];
    assert Inbound([a], typeName) == if a.child == typeName then [a] else [];
    assert Inbound([a, b], typeName) == Inbound([a], typeName) + if b.child == typeName then [b] else [];
  }

  lemma {:induction false} HopKeepsFirst(
      inbound: seq<Edge>, planner: Planner, typeName: string, iris: seq<string>, root: string)
    requires inbound != [] && planner(typeName, iris, inbound[0].parent, inbound[0].property) != []
    requires forall e :: e in inbound ==> e.parent != root
    ensures HopOver(inbound, planner, typeName, iris, root).nextType == Some(inbound[0].parent)
  {
    var n := |inbound| - 1;
    if n > 0 {
      HopKeepsFirst(inbound[..n], planner, typeName, iris, root);
    } else {
      assert inbound[..0] == [];
    }
  }

  /** A garden that depends on a plot is missed when labels refer to plots as well. */
  lemma TwoParentTypesLoseARoot()
    ensures DependsOn(GARDEN_REFS, GARDEN_EDGES, "Plot", ["p"], "Garden", "g")
    ensures AffectedRoots(GARDEN_EDGES, PlannerOf(GARDEN_REFS), "Plot", ["p"], "Garden", 8) == []
  {
    GardenDependsOnPlot();
    var planner := PlannerOf(GARDEN_REFS);
    InboundCases(GARDEN_EDGES[0], GARDEN_EDGES[1], GARDEN_EDGES[2], "Plot");
    InboundCases(GARDEN_EDGES[0], GARDEN_EDGES[1], GARDEN_EDGES[2], "Label");
    var iris := Uniq(["p"]);
    AddMembers([], ["p"], "p");
    FindParentsExact(GARDEN_REFS, iris, "Label", "of", "l");
    assert GARDEN_REFS[0] in GARDEN_REFS;
    assert RefersToSome(GARDEN_REFS, "Label", "l", "of", iris);
    HopKeepsFirst(Inbound(GARDEN_EDGES, "Plot"), planner, "Plot", iris, "Garden");
    DeadEndHidesRoots(GARDEN_EDGES, planner, "Plot", ["p"], "Garden", 8);
  }
}
