/**
 * The change handler (packages/calc-engine/src/delta.ts:77-100, 252-301): which warm a
 * change event leads to, and when it covers every root depending on the changed entity.
 */
module Invalidation {
  import opened Json
  import opened Profiles
  import opened Climb
  import opened ClimbLimits
  import opened ClimbCoverage
  import opened Scheduler

  /** Transitive dependents of a slot scope (`planInvalidation`). */
  type Dependents = string -> seq<string>

  predicate OwnsSlot(profile: Profile, typeName: string)
  {
    exists i :: 0 <= i < |profile| && Owns(profile[i], typeName)
  }

  function Members(s: seq<string>): set<string>
  {
    set x | x in s
  }

  function DirtyScopes(profile: Profile, typeName: string, dependents: Dependents): set<string>
  {
    if profile == [] then {}
    else
      var n := |profile| - 1;
      DirtyScopes(profile[..n], typeName, dependents)
      + if Owns(profile[n], typeName) then {profile[n].scope} + Members(dependents(profile[n].scope)) else {}
  }

  /** `dirtyScopesForChange`, with its result as a set */
  method DirtyScopesForChange(profile: Profile, typeName: string, dependents: Dependents) returns (all: set<string>)
    ensures all == DirtyScopes(profile, typeName, dependents)
  {
    var seeds: seq<string> := [];
    all := {};
    for k := 0 to |profile|
      invariant all == DirtyScopes(profile[..k], typeName, dependents)
    {
      assert profile[..k + 1][..k] == profile[..k];
      if !Owns(profile[k], typeName) { continue; }
      var deps := dependents(profile[k].scope);
      all := all + {profile[k].scope};
      ghost var before := all;
      for j := 0 to |deps|
        invariant all == before + Members(deps[..j])
      {
        assert deps[..j + 1] == deps[..j] + [deps[j]];
        all := all + {deps[j]};
      }
      assert deps[..|deps|] == deps;
    }
    assert profile[..|profile|] == profile;
  }

  lemma {:induction false} DirtyIffOwned(profile: Profile, typeName: string, dependents: Dependents)
    ensures DirtyScopes(profile, typeName, dependents) != {} <==> OwnsSlot(profile, typeName)
  {
    if profile != [] {
      var n := |profile| - 1;
      DirtyIffOwned(profile[..n], typeName, dependents);
      if Owns(profile[n], typeName) {
        assert profile[n].scope in DirtyScopes(profile, typeName, dependents);
      }
      if OwnsSlot(profile[..n], typeName) {
        var i :| 0 <= i < n && Owns(profile[..n][i], typeName);
        assert Owns(profile[i], typeName);
      }
    }
  }

  /** Dirty are the scopes of the slots of the type and their transitive dependents, and no other. */
  lemma {:induction false} DirtyScopesExact(profile: Profile, typeName: string, dependents: Dependents, scope: string)
    ensures scope in DirtyScopes(profile, typeName, dependents) <==>
            exists s :: s in profile && Owns(s, typeName) && (scope == s.scope || scope in dependents(s.scope))
  {
    if profile != [] {
      var n := |profile| - 1;
      DirtyScopesExact(profile[..n], typeName, dependents, scope);
      assert profile == profile[..n] + [profile[n]];
      if s :| s in profile[..n] && Owns(s, typeName) && (scope == s.scope || scope in dependents(s.scope)) {
        assert s in profile;
      }
    }
  }

  datatype ChangeEvent = ChangeEvent(remove: bool, typeName: string, entityIRI: string)

  /** What the handler does at once: nothing, trigger a warm, or start a climb. */
  datatype Reaction = Ignore | Request(task: Task) | StartClimb

  /** The fixed arguments of a subscription. */
  datatype Setup = Setup(
    profile: Profile, dependents: Dependents, edges: seq<Edge>, rootType: string, planner: Option<Planner>)

  const MAX_HOPS := 8

  predicate DirectChild(setup: Setup, typeName: string)
  {
    exists i :: 0 <= i < |setup.edges| && setup.edges[i].parent == setup.rootType && setup.edges[i].child == typeName
  }

  function React(setup: Setup, event: ChangeEvent): Reaction
  {
    if event.remove then Request(FULL_SWEEP)
    else
      var dirty := DirtyScopes(setup.profile, event.typeName, setup.dependents) != {};
      if event.typeName == setup.rootType then
        if dirty then Request(Task(Some([event.entityIRI]))) else Ignore
      else if !dirty && !DirectChild(setup, event.typeName) then Ignore
      else if setup.planner.Some? then StartClimb
      else Request(FULL_SWEEP)
  }

  /** The task a finished climb triggers: no roots found means every root. */
  function ClimbTask(roots: seq<string>): Task
  {
    if roots != [] then Task(Some(roots)) else FULL_SWEEP
  }

  /** The subscription's listener. */
  method OnEvent(sub: Subscription, setup: Setup, event: ChangeEvent) returns (climb: bool)
    modifies sub
    ensures climb == React(setup, event).StartClimb?
    ensures sub.State() ==
      if React(setup, event).Request? then Triggered(old(sub.State()), React(setup, event).task) else old(sub.State())
  {
    climb := false;
    if event.remove {
      sub.RunOrQueue(Task(None));
      return;
    }
    var dirtyScopes := DirtyScopesForChange(setup.profile, event.typeName, setup.dependents);
    if event.typeName == setup.rootType {
      if dirtyScopes == {} { return; }
      sub.RunOrQueue(Task(Some([event.entityIRI])));
      return;
    }
    var isRelatedChild := IsRelatedChild(setup, event.typeName);
    if dirtyScopes == {} && !isRelatedChild { return; }
    if setup.planner.Some? { return true; }
    sub.RunOrQueue(Task(None));
  }

  method IsRelatedChild(setup: Setup, typeName: string) returns (found: bool)
    ensures found == DirectChild(setup, typeName)
  {
    found := false;
    for k := 0 to |setup.edges|
      invariant !found && forall i :: 0 <= i < k ==>
        !(setup.edges[i].parent == setup.rootType && setup.edges[i].child == typeName)
    {
      if setup.edges[k].parent == setup.rootType && setup.edges[k].child == typeName { return true; }
    }
  }

  /** The continuation of a climb. */
  method OnClimbed(sub: Subscription, setup: Setup, event: ChangeEvent)
    requires setup.planner.Some?
    modifies sub
    ensures sub.State() == Triggered(old(sub.State()), ClimbedTask(setup, event))
  {
    var roots, queries := ClimbAffectedRoots(
      setup.edges, setup.planner.value, event.typeName, [event.entityIRI], setup.rootType, MAX_HOPS);
    sub.RunOrQueue(if |roots| > 0 then Task(Some(roots)) else Task(None));
  }

  function ClimbedTask(setup: Setup, event: ChangeEvent): Task
    requires setup.planner.Some?
  {
    ClimbTask(AffectedRoots(
      setup.edges, setup.planner.value, event.typeName, [event.entityIRI], setup.rootType, MAX_HOPS))
  }

  /** The warm an event leads to in the end, at once or after its climb. */
  function Requested(setup: Setup, event: ChangeEvent): Option<Task>
  {
    match React(setup, event)
    case Ignore => None
    case Request(task) => Some(task)
    case StartClimb => Some(ClimbedTask(setup, event))
  }

  /** Every requested task is a full sweep or names at least one root. */
  lemma RequestsAreProper(setup: Setup, event: ChangeEvent)
    ensures Requested(setup, event).Some? ==> Proper(Requested(setup, event).value)
  {
  }

  /** Exactly the upserts of types that own no slot and are no direct child of the root are dropped. */
  lemma IgnoredIff(setup: Setup, event: ChangeEvent)
    ensures Requested(setup, event).None? <==>
            && !event.remove
            && (forall s :: s in setup.profile ==> !Owns(s, event.typeName))
            && (event.typeName == setup.rootType
                || forall e :: e in setup.edges ==> !(e.parent == setup.rootType && e.child == event.typeName))
  {
    DirtyIffOwned(setup.profile, event.typeName, setup.dependents);
    if s :| s in setup.profile && Owns(s, event.typeName) {
      var i :| 0 <= i < |setup.profile| && setup.profile[i] == s;
      assert OwnsSlot(setup.profile, event.typeName);
    }
    if e :| e in setup.edges && e.parent == setup.rootType && e.child == event.typeName {
      var i :| 0 <= i < |setup.edges| && setup.edges[i] == e;
      assert DirectChild(setup, event.typeName);
    }
  }

  /** The type owns a slot, or is a direct child of a different root type. */
  predicate Handled(setup: Setup, typeName: string)
  {
    OwnsSlot(setup.profile, typeName) || (typeName != setup.rootType && DirectChild(setup, typeName))
  }

  /**
   * Nothing above the type hides a root: with a planner the climb meets no fork and does not
   * stop at a root below others; the root type itself is not its own ancestor.
   */
  ghost predicate SafeType(setup: Setup, typeName: string)
  {
    && (setup.planner.Some? ==>
          Unforked(setup.edges, typeName, setup.rootType, MAX_HOPS)
          && !StopsShort(setup.edges, typeName, setup.rootType, MAX_HOPS))
    && (typeName == setup.rootType ==> !OwnAncestor(setup.edges, setup.rootType))
  }

  lemma SafeClimbCovers(
      refs: seq<Reference>, edges: seq<Edge>, planner: Planner, typeName: string, iri: string, root: string, hops: nat,
      r: string)
    requires PlannerExact(refs, planner, edges)
    requires Unforked(edges, typeName, root, hops) && !StopsShort(edges, typeName, root, hops)
    requires DependsOn(refs, edges, typeName, [iri], root, r)
    ensures var roots := AffectedRoots(edges, planner, typeName, [iri], root, hops); roots == [] || r in roots
  {
    UniqOne(iri);
    if AffectedRoots(edges, planner, typeName, [iri], root, hops) != [] {
      FoundReaches(edges, planner, typeName, [iri], root, hops);
      DependsIffFirst(refs, edges, typeName, [iri], root, r);
      UnforkedCovers(refs, edges, planner, typeName, [iri], root, hops, r);
    }
  }

  /** Unless roots can depend on roots, the only root that depends on a root is that root. */
  lemma RootDependsOnItself(refs: seq<Reference>, edges: seq<Edge>, iri: string, root: string, r: string)
    requires !OwnAncestor(edges, root) && DependsOn(refs, edges, root, [iri], root, r)
    ensures r == iri
  {
    DependsIffFirst(refs, edges, root, [iri], root, r);
    var c, n: nat :| c in [iri] && RootChain(refs, edges, root, c, root, r, n);
  }

  /**
   * Invalidation coverage: for every removal, and for every upsert of a handled and safe type,
   * the requested warm covers each root that depends on the changed entity.
   */
  lemma InvalidationCovers(setup: Setup, refs: seq<Reference>, event: ChangeEvent, root: string)
    requires event.remove || (Handled(setup, event.typeName) && SafeType(setup, event.typeName))
    requires setup.planner.Some? ==> PlannerExact(refs, setup.planner.value, setup.edges)
    requires DependsOn(refs, setup.edges, event.typeName, [event.entityIRI], setup.rootType, root)
    ensures Requested(setup, event).Some? && Covers(Requested(setup, event).value, root)
  {
    DirtyIffOwned(setup.profile, event.typeName, setup.dependents);
    if !event.remove {
      if event.typeName == setup.rootType {
        RootDependsOnItself(refs, setup.edges, event.entityIRI, setup.rootType, root);
        assert root in [event.entityIRI];
      } else if setup.planner.Some? {
        SafeClimbCovers(refs, setup.edges, setup.planner.value, event.typeName, event.entityIRI, setup.rootType,
                        MAX_HOPS, root);
      }
    }
  }

  // ----- exactly the schemas on which coverage holds -----

  /** The subscription with a planner, if it has one, that answers from the given references. */
  function Planning(setup: Setup, refs: seq<Reference>): Setup
  {
    if setup.planner.Some? then setup.(planner := Some(PlannerOf(refs))) else setup
  }

  /** The warm an upsert leads to covers every root that depends on the entity. */
  ghost predicate UpsertCovered(setup: Setup, refs: seq<Reference>, typeName: string, iri: string)
  {
    forall root :: DependsOn(refs, setup.edges, typeName, [iri], setup.rootType, root) ==>
      var request := Requested(Planning(setup, refs), ChangeEvent(false, typeName, iri));
      request.Some? && Covers(request.value, root)
  }

  ghost predicate AlwaysCovered(setup: Setup, typeName: string)
  {
    forall refs, iri :: UpsertCovered(setup, refs, typeName, iri)
  }

  /**
   * Upserts of a type are covered on every store, if and only if no root can depend on the
   * type, or the type is handled and safe.
   */
  lemma CoverageIff(setup: Setup, typeName: string)
    requires Named(setup.edges) && Distinct(setup.edges)
    ensures AlwaysCovered(setup, typeName) <==>
            !Ancestor(setup.edges, typeName, setup.rootType) || (Handled(setup, typeName) && SafeType(setup, typeName))
  {
    if !Ancestor(setup.edges, typeName, setup.rootType) {
      forall refs, iri ensures UpsertCovered(setup, refs, typeName, iri) {
        forall root ensures !DependsOn(refs, setup.edges, typeName, [iri], setup.rootType, root) {
          NoDependents(refs, setup.edges, typeName, [iri], setup.rootType, root);
        }
      }
    } else if !Handled(setup, typeName) {
      IgnoredIsLost(setup, typeName);
    } else if SafeType(setup, typeName) {
      forall refs, iri ensures UpsertCovered(setup, refs, typeName, iri) { SafeIsCovered(setup, refs, typeName, iri); }
    } else {
      UnsafeIsLost(setup, typeName);
    }
  }

  lemma SafeIsCovered(setup: Setup, refs: seq<Reference>, typeName: string, iri: string)
    requires Handled(setup, typeName) && SafeType(setup, typeName) && Named(setup.edges)
    ensures UpsertCovered(setup, refs, typeName, iri)
  {
    PlannerOfIsExact(refs, setup.edges);
    forall root | DependsOn(refs, setup.edges, typeName, [iri], setup.rootType, root)
      ensures var request := Requested(Planning(setup, refs), ChangeEvent(false, typeName, iri));
        request.Some? && Covers(request.value, root)
    {
      InvalidationCovers(Planning(setup, refs), refs, ChangeEvent(false, typeName, iri), root);
    }
  }

  lemma IgnoredIsLost(setup: Setup, typeName: string)
    requires !Handled(setup, typeName) && Ancestor(setup.edges, typeName, setup.rootType)
    ensures !AlwaysCovered(setup, typeName)
  {
    var es :| TypeRoute(setup.edges, typeName, setup.rootType, es);
    var refs, r := Route(es, Name(0), 1), ClimbLimits.End(es, Name(0), 1);
    StoreHolds(refs, es, Name(0), 1);
    RouteDepends(refs, setup.edges, typeName, es, setup.rootType, Name(0), 1);
    assert Name(0) in [Name(0)];
    FirstDepends(refs, setup.edges, typeName, [Name(0)], setup.rootType, r);
    IgnoredIff(Planning(setup, refs), ChangeEvent(false, typeName, Name(0)));
    assert !UpsertCovered(setup, refs, typeName, Name(0));
  }

  lemma UnsafeIsLost(setup: Setup, typeName: string)
    requires Named(setup.edges) && Distinct(setup.edges)
    requires Handled(setup, typeName) && !SafeType(setup, typeName)
    ensures !AlwaysCovered(setup, typeName)
  {
    DirtyIffOwned(setup.profile, typeName, setup.dependents);
    if typeName == setup.rootType {
      RootHidesRoot(setup);
    } else {
      AllOrNoneIff(setup.edges, typeName, setup.rootType, MAX_HOPS);
      var refs, iri :| !AllOrNone(refs, setup.edges, typeName, iri, setup.rootType, MAX_HOPS);
      assert !UpsertCovered(setup, refs, typeName, iri);
    }
  }

  /** The upsert of a root warms that root only. */
  lemma RootHidesRoot(setup: Setup)
    requires Named(setup.edges) && OwnsSlot(setup.profile, setup.rootType) && !SafeType(setup, setup.rootType)
    ensures !AlwaysCovered(setup, setup.rootType)
  {
    var root := setup.rootType;
    assert TypeRoute(setup.edges, root, root, []);
    var refs, r := SecondRoot(setup.edges, root, root, [], MAX_HOPS);
    DirtyIffOwned(setup.profile, root, setup.dependents);
    assert r !in [Name(0)];
    assert !UpsertCovered(setup, refs, root, Name(0));
  }

  /**
   * For a direct child of the root, with a planner: on every store, if and only if no other type
   * that refers to it has the root among its ancestor types, and the root type is not its own
   * ancestor. Without one, always.
   */
  lemma DirectChildCoverageIff(setup: Setup, typeName: string)
    requires Named(setup.edges) && Distinct(setup.edges)
    requires DirectChild(setup, typeName) && typeName != setup.rootType
    ensures AlwaysCovered(setup, typeName) <==>
            (setup.planner.Some? ==>
               && !OwnAncestor(setup.edges, setup.rootType)
               && forall e :: e in setup.edges && e.child == typeName && e.parent != setup.rootType ==>
                    !Ancestor(setup.edges, e.parent, setup.rootType))
  {
    var edges, root := setup.edges, setup.rootType;
    var i :| 0 <= i < |edges| && edges[i].parent == root && edges[i].child == typeName;
    assert edges[i] in edges;
    assert TypeRoute(edges, root, root, []) && [edges[i]][1..] == [];
    assert TypeRoute(edges, typeName, root, [edges[i]]);
    assert Reaches(edges, typeName, root, MAX_HOPS);
    CoverageIff(setup, typeName);
    DirectChildUnforkedIff(edges, typeName, root, MAX_HOPS);
  }

  // ----- roots that depend on roots -----

  const PLACE_EDGES := [Edge("Place", "Place", "partOf")]

  /** Place q is part of place p. */
  const PLACE_REFS := [Reference("Place", "q", "partOf", "p")]

  /** The upsert of a place warms that place, and not the place that is part of it and reads its name. */
  lemma PlaceHidesPart(setup: Setup)
    requires setup.edges == PLACE_EDGES && setup.rootType == "Place" && OwnsSlot(setup.profile, "Place")
    ensures DependsOn(PLACE_REFS, setup.edges, "Place", ["p"], "Place", "q")
    ensures Requested(setup, ChangeEvent(false, "Place", "p")) == Some(Task(Some(["p"])))
    ensures !Covers(Requested(setup, ChangeEvent(false, "Place", "p")).value, "q")
  {
    assert PLACE_EDGES[0] in PLACE_EDGES && PLACE_REFS[0] in PLACE_REFS;
    assert Refers(PLACE_REFS, PLACE_EDGES[0], "q", "p");
    assert TypedChain(PLACE_REFS, PLACE_EDGES, "Place", "q", "Place", "q", 0);
    assert TypedChain(PLACE_REFS, PLACE_EDGES, "Place", "p", "Place", "q", 1);
    assert "p" in ["p"];
    DirtyIffOwned(setup.profile, "Place", setup.dependents);
  }

  const MAYOR_EDGES := [Edge("Place", "Person", "mayor"), Edge("Place", "Place", "partOf")]

  /** Place p has the mayor m, and place q is part of p. */
  const MAYOR_REFS := [Reference("Place", "p", "mayor", "m"), Reference("Place", "q", "partOf", "p")]

  lemma PartDependsOnMayor()
    ensures DependsOn(MAYOR_REFS, MAYOR_EDGES, "Person", ["m"], "Place", "q")
  {
    assert MAYOR_EDGES[0] in MAYOR_EDGES && MAYOR_EDGES[1] in MAYOR_EDGES;
    assert MAYOR_REFS[0] in MAYOR_REFS && MAYOR_REFS[1] in MAYOR_REFS;
    assert Refers(MAYOR_REFS, MAYOR_EDGES[0], "p", "m") && Refers(MAYOR_REFS, MAYOR_EDGES[1], "q", "p");
    assert TypedChain(MAYOR_REFS, MAYOR_EDGES, "Place", "q", "Place", "q", 0);
    assert TypedChain(MAYOR_REFS, MAYOR_EDGES, "Place", "p", "Place", "q", 1);
    assert TypedChain(MAYOR_REFS, MAYOR_EDGES, "Person", "m", "Place", "q", 2);
    assert "m" in ["m"];
  }

  lemma MayorClimb()
    ensures AffectedRoots(MAYOR_EDGES, PlannerOf(MAYOR_REFS), "Person", ["m"], "Place", MAX_HOPS) == ["p"]
  {
    var planner, inbound := PlannerOf(MAYOR_REFS), Inbound(MAYOR_EDGES, "Person");
    UniqOne("m");
    UniqOne("p");
    assert MAYOR_EDGES[..1] == [MAYOR_EDGES[0]] && MAYOR_EDGES[..1][..0] == [];
    assert inbound == [MAYOR_EDGES[0]] && inbound[..0] == [];
    assert MAYOR_REFS[..1] == [MAYOR_REFS[0]] && MAYOR_REFS[..1][..0] == [];
    assert FindParents(MAYOR_REFS[..1], ["m"], "Place", "mayor") == ["p"];
    assert FindParents(MAYOR_REFS, ["m"], "Place", "mayor") == ["p"];
    assert HopOver(inbound, planner, "Person", ["m"], "Place") == Hop(["p"], Some("Place"));
    assert ClimbFrom(MAYOR_EDGES, planner, "Place", ["p"], "Place", 7) == (["p"], 0);
  }

  /** The climb from the mayor stops at the first place. */
  lemma MayorHidesPart(setup: Setup)
    requires setup.edges == MAYOR_EDGES && setup.rootType == "Place" && setup.planner == Some(PlannerOf(MAYOR_REFS))
    ensures DependsOn(MAYOR_REFS, setup.edges, "Person", ["m"], "Place", "q")
    ensures Requested(setup, ChangeEvent(false, "Person", "m")) == Some(Task(Some(["p"])))
    ensures !Covers(Requested(setup, ChangeEvent(false, "Person", "m")).value, "q")
  {
    PartDependsOnMayor();
    MayorClimb();
    assert setup.edges[0] == Edge("Place", "Person", "mayor");
  }

  /** Along a line of single parent types, up to eight types below the root are covered by targeted warms, and no more. */
  lemma EightHops(setup: Setup, typeName: string, k: nat)
    requires Named(setup.edges) && Distinct(setup.edges) && SingleLine(setup.edges, typeName, setup.rootType, k)
    requires !OwnAncestor(setup.edges, setup.rootType)
    ensures (forall refs :: ExactOn(refs, setup.edges, typeName, setup.rootType, MAX_HOPS)) <==> k <= 8
  {
    ExactIff(setup.edges, typeName, setup.rootType, MAX_HOPS);
    LineIsRoute(setup.edges, typeName, setup.rootType, k);
    if LineWithin(setup.edges, typeName, setup.rootType, MAX_HOPS) {
      var l: nat :| l <= MAX_HOPS && SingleLine(setup.edges, typeName, setup.rootType, l);
      OneLine(setup.edges, typeName, setup.rootType, k, l);
    }
  }

  lemma {:induction false} LineIsRoute(edges: seq<Edge>, typeName: string, root: string, k: nat)
    requires SingleLine(edges, typeName, root, k)
    ensures Ancestor(edges, typeName, root)
    decreases k
  {
    if k == 0 {
      assert TypeRoute(edges, typeName, root, []);
    } else {
      var p :| SingleParent(edges, typeName, p) && SingleLine(edges, p, root, k - 1);
      LineIsRoute(edges, p, root, k - 1);
      var e :| e in edges && e.child == typeName;
      var es :| TypeRoute(edges, p, root, es);
      assert ([e] + es)[1..] == es;
      assert TypeRoute(edges, typeName, root, [e] + es);
    }
  }

  lemma {:induction false} OneLine(edges: seq<Edge>, typeName: string, root: string, k: nat, l: nat)
    requires SingleLine(edges, typeName, root, k) && SingleLine(edges, typeName, root, l)
    ensures k == l
    decreases k
  {
    if k > 0 {
      var p :| SingleParent(edges, typeName, p) && SingleLine(edges, p, root, k - 1);
      var q :| SingleParent(edges, typeName, q) && SingleLine(edges, q, root, l - 1);
      assert p == q;
      OneLine(edges, p, root, k - 1, l - 1);
    }
  }

  // ----- a root that is lost -----

  const CITY_EDGES := [Edge("City", "Place", "place"), Edge("Region", "Place", "places"), Edge("City", "Region", "region")]

  /** City A and region g refer to place c, and city B to region g. */
  const CITY_REFS := [Reference("City", "A", "place", "c"), Reference("Region", "g", "places", "c"),
                      Reference("City", "B", "region", "g")]

  lemma CityBDependsOnPlace()
    ensures DependsOn(CITY_REFS, CITY_EDGES, "Place", ["c"], "City", "B")
  {
    assert CITY_EDGES[1] in CITY_EDGES && CITY_EDGES[2] in CITY_EDGES;
    assert CITY_REFS[1] in CITY_REFS && CITY_REFS[2] in CITY_REFS;
    assert Refers(CITY_REFS, CITY_EDGES[2], "B", "g") && Refers(CITY_REFS, CITY_EDGES[1], "g", "c");
    assert TypedChain(CITY_REFS, CITY_EDGES, "City", "B", "City", "B", 0);
    assert TypedChain(CITY_REFS, CITY_EDGES, "Region", "g", "City", "B", 1);
    assert TypedChain(CITY_REFS, CITY_EDGES, "Place", "c", "City", "B", 2);
  }

  lemma ParentsOfPlace()
    ensures FindParents(CITY_REFS, ["c"], "City", "place") == ["A"]
    ensures FindParents(CITY_REFS, ["c"], "Region", "places") == ["g"]
  {
    var two, one := CITY_REFS[..2], CITY_REFS[..1];
    assert two == [CITY_REFS[0], CITY_REFS[1]] && two[..1] == one == [CITY_REFS[0]] && one[..0] == [];
    assert FindParents(one, ["c"], "City", "place") == ["A"] && FindParents(one, ["c"], "Region", "places") == [];
    assert FindParents(two, ["c"], "City", "place") == ["A"] && FindParents(two, ["c"], "Region", "places") == ["g"];
  }

  /** The hop takes the region for a city, and the climb ends there. */
  lemma PlaceClimb()
    ensures AffectedRoots(CITY_EDGES, PlannerOf(CITY_REFS), "Place", ["c"], "City", MAX_HOPS) == ["A", "g"]
  {
    var planner, inbound := PlannerOf(CITY_REFS), Inbound(CITY_EDGES, "Place");
    UniqOne("c");
    InboundCases(CITY_EDGES[0], CITY_EDGES[1], CITY_EDGES[2], "Place");
    ParentsOfPlace();
    assert inbound == [CITY_EDGES[0], CITY_EDGES[1]] && inbound[..1] == [CITY_EDGES[0]] && inbound[..1][..0] == [];
    UniqOne("A");
    assert HopOver(inbound[..1], planner, "Place", ["c"], "City") == Hop(["A"], Some("City"));
    assert Add(["A"], ["g"]) == Add(["A", "g"], []);
    assert HopOver(inbound, planner, "Place", ["c"], "City") == Hop(["A", "g"], Some("City"));
    assert ClimbFrom(CITY_EDGES, planner, "City", ["A", "g"], "City", 7) == (["A", "g"], 0);
  }

  /** The upsert of the place warms A and the region; city B depends on the place and is not warmed. */
  lemma RegionHidesCity(setup: Setup)
    requires setup.edges == CITY_EDGES && setup.rootType == "City" && setup.planner == Some(PlannerOf(CITY_REFS))
    ensures DependsOn(CITY_REFS, setup.edges, "Place", ["c"], setup.rootType, "B")
    ensures Requested(setup, ChangeEvent(false, "Place", "c")) == Some(Task(Some(["A", "g"])))
    ensures !Covers(Requested(setup, ChangeEvent(false, "Place", "c")).value, "B")
  {
    CityBDependsOnPlace();
    PlaceClimb();
    assert setup.edges[0] == Edge("City", "Place", "place");
  }
}
