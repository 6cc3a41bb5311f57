/**
 * The step machine with the real parts in it: documents are read and evaluated, targets
 * selected and fingerprinted, writes asserted on the documents, climbs answered from the
 * references those show, and events handled, as the other modules define.
 */
module CalcSystem {
  import opened Strings
  import opened Json
  import opened Profiles
  import opened Fingerprints
  import opened Targets
  import opened Views
  import opened Evaluator
  import opened Roots
  import opened Statements
  import opened DualAssertion
  import opened Warm
  import opened Climb
  import opened ClimbLimits
  import opened ClimbCoverage
  import opened Scheduler
  import opened Invalidation
  import opened References
  import opened Engine
  import opened Startup

  /**
   * A worker: how it evaluates, and how its subscription is set up. A planner in the setup
   * stands for one that answers from the documents at hand.
   */
  datatype Config = Config(f: Formula, host: Host, depth: nat, canLoad: bool, setup: Setup)

  function Slots(cfg: Config): seq<Slot>
  {
    ByStratum(cfg.setup.profile)
  }

  function Evaluated(cfg: Config, doc: Json): Json
  {
    EvaluateDoc(cfg.setup.profile, cfg.f, cfg.host, cfg.setup.rootType, doc)
  }

  function AllEvaluated(cfg: Config, docs: seq<Json>): seq<Json>
  {
    EvaluateDocs(cfg.setup.profile, cfg.f, cfg.host, cfg.setup.rootType, docs)
  }

  function Iris(task: Task): seq<string>
  {
    if task.rootIRIs.Some? then task.rootIRIs.value else []
  }

  /** The jobs of the run `warm` makes for a task. */
  function TaskJobs(cfg: Config, docs: Documents, task: Task): seq<Job>
  {
    PassJobs(cfg.setup.profile, cfg.f, cfg.host, cfg.setup.rootType, docs, cfg.depth, Iris(task))
  }

  /** The document of a root the store lists. */
  function ListedDoc(cfg: Config, docs: Documents, root: string): Option<Json>
  {
    if root in IdsOf(docs.rows) then RootDoc(docs, cfg.depth, root) else None
  }

  function RootJobs(cfg: Config, docs: Documents, root: string): seq<Job>
  {
    var doc := ListedDoc(cfg, docs, root);
    if doc.Some? then JobsOf(cfg.setup.profile, Evaluated(cfg, doc.value)) else []
  }

  // ----- what the documents relate -----

  /** A root's document, computed properties and sidecars apart. */
  function RootView(cfg: Config, docs: Documents, root: string): Option<View>
  {
    var doc := ListedDoc(cfg, docs, root);
    if doc.Some? then Some(ViewOf(Slots(cfg), [], StampType(doc.value, cfg.setup.rootType))) else None
  }

  function RefsOfRoots(cfg: Config, docs: Documents, roots: seq<string>): seq<Reference>
  {
    if roots == [] then []
    else
      var view := RootView(cfg, docs, roots[0]);
      (if view.Some? then RefsIn(view.value) else []) + RefsOfRoots(cfg, docs, roots[1..])
  }

  /** The references in the documents of all roots: what the planner of a climb looks up. */
  function RefsOf(cfg: Config, docs: Documents): seq<Reference>
  {
    RefsOfRoots(cfg, docs, IdsOf(docs.rows))
  }

  /** The subscription at the time of some documents. */
  function SetupAt(cfg: Config, docs: Documents): Setup
  {
    Planning(cfg.setup, RefsOf(cfg, docs))
  }

  /** The root's document shows the entity. */
  predicate ShownBy(cfg: Config, docs: Documents, key: Key, root: string)
  {
    RootView(cfg, docs, root).Some? && Shows(RootView(cfg, docs, root).value, key)
  }

  /** The event tells of an entity in the root's document, or of a removal. */
  predicate Pledge(cfg: Config, docs: Documents, event: ChangeEvent, root: string)
  {
    event.remove || (Handled(cfg.setup, event.typeName) && ShownBy(cfg, docs, Key(event.typeName, event.entityIRI), root))
  }

  /** Documents that are tidy and related as the schema says, each under its own id. */
  ghost predicate Admissible(cfg: Config, docs: Documents)
  {
    && GoodDocuments(Slots(cfg), cfg.setup.rootType, docs)
    && forall root :: RootView(cfg, docs, root).Some? ==>
         FollowsEdges(cfg.setup.edges, cfg.setup.rootType, root, RootView(cfg, docs, root).value)
  }

  /** Every slot can be evaluated, and nothing above a handled type hides a root. */
  ghost predicate Safe(cfg: Config)
  {
    && Regular(cfg.setup.profile, cfg.f, cfg.host) && PlainName(cfg.setup.rootType) && Named(cfg.setup.edges)
    && forall t :: Handled(cfg.setup, t) ==> SafeType(cfg.setup, t)
  }

  ghost function WorldOf(cfg: Config): World
  {
    World(
      (docs: Documents, task: Task) => TaskJobs(cfg, docs, task),
      (docs: Documents, root: string) => RootJobs(cfg, docs, root),
      (event: ChangeEvent) => React(cfg.setup, event),
      (docs: Documents, event: ChangeEvent, root: string) => Pledge(cfg, docs, event, root),
      (docs: Documents) => Admissible(cfg, docs),
      (docs: Documents, job: Job) => WriteBack(docs, cfg.setup.rootType, job.key, job.writes),
      (job: Job) => WellMade(cfg.setup.profile, job),
      (docs: Documents, job: Job) => IsListed(docs, cfg.setup.rootType, job.key),
      cfg.canLoad)
  }

  // ----- runs do the jobs of the roots they cover -----

  lemma DocJobs(cfg: Config, docs: seq<Json>, doc: Json, j: Job)
    requires doc in docs && j in JobsOf(cfg.setup.profile, Evaluated(cfg, doc))
    ensures j in JobsOfDocs(cfg.setup.profile, AllEvaluated(cfg, docs))
  {
    var k :| 0 <= k < |docs| && docs[k] == doc;
    ConcatContains(JobLists(cfg.setup.profile, AllEvaluated(cfg, docs)), k, j);
  }

  lemma RunDoesRootJobs(cfg: Config, docs: Documents, task: Task, root: string, j: Job)
    requires Covers(task, root) && j in RootJobs(cfg, docs, root)
    ensures j in TaskJobs(cfg, docs, task)
  {
    IdsOfExact(docs.rows, root);
    SelectionCovers(docs, cfg.depth, Iris(task), root);
    DocJobs(cfg, RawDocs(docs, Iris(task), cfg.depth), RootDoc(docs, cfg.depth, root).value, j);
  }

  // ----- a write changes no job and no reference, but for a root that it creates -----

  /** The document of a root that is listed. */
  lemma ListedDocBefore(cfg: Config, docs: Documents, key: Key, root: string)
    requires GoodDocuments(Slots(cfg), cfg.setup.rootType, docs)
    ensures var before := DocBefore(docs, cfg.setup.rootType, key, cfg.depth, root);
      if root in IdsOf(docs.rows) then before == ListedDoc(cfg, docs, root)
      else if !IsListed(docs, cfg.setup.rootType, key) && root == key.iri then before == Some(Blank(key))
      else ListedDoc(cfg, docs, root) == None
  {
    RowWithIdIn(docs.rows, root);
    IdsOfExact(docs.rows, root);
  }

  lemma WrittenRoot(cfg: Config, docs: Documents, job: Job, root: string)
    requires Safe(cfg) && GoodDocuments(Slots(cfg), cfg.setup.rootType, docs) && WellMade(cfg.setup.profile, job)
    requires root in IdsOf(docs.rows) || IsListed(docs, cfg.setup.rootType, job.key) || root != job.key.iri
    ensures var after := WriteBack(docs, cfg.setup.rootType, job.key, job.writes);
      && RootView(cfg, after, root) == RootView(cfg, docs, root)
      && RootJobs(cfg, after, root) == RootJobs(cfg, docs, root)
      && (root in IdsOf(after.rows) <==> root in IdsOf(docs.rows))
  {
    WrittenRootDoc(Slots(cfg), cfg.setup.rootType, docs, cfg.depth, root, job.key, job.writes);
    RootDocGood(Slots(cfg), cfg.setup.rootType, docs, cfg.depth, root);
    ListedDocBefore(cfg, docs, job.key, root);
    var doc := ListedDoc(cfg, docs, root);
    if doc.Some? {
      StampUnseen(Slots(cfg), cfg.setup.rootType, doc.value, job.key, job.writes);
      WrittenDocJobs(cfg.setup.profile, cfg.f, cfg.host, cfg.setup.rootType, doc.value, job);
    }
  }

  /** A write for a root that is not there lists it, with a document of its id, its type and the outputs. */
  lemma CreatedRoot(cfg: Config, docs: Documents, job: Job)
    requires Safe(cfg) && GoodDocuments(Slots(cfg), cfg.setup.rootType, docs) && WellMade(cfg.setup.profile, job)
    requires !IsListed(docs, cfg.setup.rootType, job.key)
    ensures var after := WriteBack(docs, cfg.setup.rootType, job.key, job.writes);
      && RootView(cfg, docs, job.key.iri) == None && RootJobs(cfg, docs, job.key.iri) == []
      && ListedDoc(cfg, after, job.key.iri) == Some(WriteDoc(Blank(job.key), cfg.setup.rootType, job.key, job.writes))
      && RootView(cfg, after, job.key.iri)
         == Some(ViewOf(Slots(cfg), [], StampType(Blank(job.key), cfg.setup.rootType)))
  {
    var root := job.key.iri;
    WrittenRootDoc(Slots(cfg), cfg.setup.rootType, docs, cfg.depth, root, job.key, job.writes);
    ListedDocBefore(cfg, docs, job.key, root);
    StampUnseen(Slots(cfg), cfg.setup.rootType, Blank(job.key), job.key, job.writes);
  }

  /** A document of id and type alone follows the schema and shows its root. */
  lemma BlankFollows(slots: seq<Slot>, edges: seq<Edge>, rootType: string, key: Key)
    requires DataNames(slots) && PlainName(rootType) && key.typeName == rootType && key.iri != ""
    ensures var view := ViewOf(slots, [], StampType(Blank(key), rootType));
      FollowsEdges(edges, rootType, key.iri, view) && Shows(view, key)
  {
    BlankStamped(rootType, key);
    BlankView(slots, rootType, key);
    var stamped := StampType(Blank(key), rootType);
    PlainType(rootType, stamped.fields);
    var view := ViewOf(slots, [], stamped);
    assert ViewLookup(view.core, "@id") == Some(view.core[0].view);
    assert OwnView(view) == [Seen(rootType, key.iri, view)];
    assert Names(EntityViews(view)[0], key);
  }

  lemma CreatedFollows(cfg: Config, docs: Documents, job: Job)
    requires Safe(cfg) && GoodDocuments(Slots(cfg), cfg.setup.rootType, docs) && WellMade(cfg.setup.profile, job)
    requires !IsListed(docs, cfg.setup.rootType, job.key)
    ensures var view := RootView(cfg, WriteBack(docs, cfg.setup.rootType, job.key, job.writes), job.key.iri);
      && view.Some? && FollowsEdges(cfg.setup.edges, cfg.setup.rootType, job.key.iri, view.value)
      && Shows(view.value, job.key)
  {
    CreatedRoot(cfg, docs, job);
    BlankFollows(Slots(cfg), cfg.setup.edges, cfg.setup.rootType, job.key);
  }

  /** The documents after any write may occur: every root follows the schema. */
  lemma WrittenIsAdmissible(cfg: Config, docs: Documents, job: Job)
    requires Safe(cfg) && Admissible(cfg, docs) && WellMade(cfg.setup.profile, job)
    ensures Admissible(cfg, WriteBack(docs, cfg.setup.rootType, job.key, job.writes))
  {
    var after := WriteBack(docs, cfg.setup.rootType, job.key, job.writes);
    WriteBackKeeps(Slots(cfg), cfg.setup.rootType, docs, job.key, job.writes);
    forall root | RootView(cfg, after, root).Some?
      ensures FollowsEdges(cfg.setup.edges, cfg.setup.rootType, root, RootView(cfg, after, root).value)
    {
      if root == job.key.iri && !IsListed(docs, cfg.setup.rootType, job.key) {
        CreatedFollows(cfg, docs, job);
      } else {
        WrittenRoot(cfg, docs, job, root);
      }
    }
  }

  /** Documents that carry a write to an entity they have are the same to runs and to events. */
  lemma WriteIsEquivalent(cfg: Config, docs: Documents, job: Job)
    requires Safe(cfg) && Admissible(cfg, docs) && WellMade(cfg.setup.profile, job)
    requires IsListed(docs, cfg.setup.rootType, job.key)
    ensures Equivalent(WorldOf(cfg), docs, WriteBack(docs, cfg.setup.rootType, job.key, job.writes))
  {
    var w, after := WorldOf(cfg), WriteBack(docs, cfg.setup.rootType, job.key, job.writes);
    WrittenIsAdmissible(cfg, docs, job);
    forall task ensures TaskJobs(cfg, after, task) == TaskJobs(cfg, docs, task) {
      WrittenPassJobs(cfg.setup.profile, cfg.f, cfg.host, cfg.setup.rootType, docs, cfg.depth, Iris(task), job);
    }
    forall root
      ensures RootView(cfg, after, root) == RootView(cfg, docs, root)
      ensures RootJobs(cfg, after, root) == RootJobs(cfg, docs, root)
    {
      WrittenRoot(cfg, docs, job, root);
    }
    forall e, root ensures w.pledge(after, e, root) == w.pledge(docs, e, root) { }
    WrittenRootDoc(Slots(cfg), cfg.setup.rootType, docs, cfg.depth, "", job.key, job.writes);
    forall j ensures w.listed(after, j) == w.listed(docs, j) { }
  }

  /** A write to an entity that was removed creates its root, whose echo tells of it, and changes no other. */
  lemma WriteExtends(cfg: Config, docs: Documents, job: Job)
    requires Safe(cfg) && Admissible(cfg, docs) && WellMade(cfg.setup.profile, job) && job.writes != []
    requires !IsListed(docs, cfg.setup.rootType, job.key)
    ensures Extends(WorldOf(cfg), docs, WriteBack(docs, cfg.setup.rootType, job.key, job.writes), Echo(job.key))
  {
    var w, after := WorldOf(cfg), WriteBack(docs, cfg.setup.rootType, job.key, job.writes);
    WrittenIsAdmissible(cfg, docs, job);
    WrittenRootDoc(Slots(cfg), cfg.setup.rootType, docs, cfg.depth, "", job.key, job.writes);
    forall root ensures root != job.key.iri ==> SameRoot(cfg, docs, after, root) {
      if root != job.key.iri { WrittenRoot(cfg, docs, job, root); }
    }
    CreatedRoot(cfg, docs, job);
    CreatedIsTold(cfg, docs, job);
    forall e, root | w.pledge(docs, e, root) ensures w.pledge(after, e, root) {
      assert root != job.key.iri ==> SameRoot(cfg, docs, after, root);
    }
    forall root | w.rootJobs(after, root) != w.rootJobs(docs, root)
      ensures w.rootJobs(docs, root) == [] && w.pledge(after, Echo(job.key), root)
    {
      assert root != job.key.iri ==> SameRoot(cfg, docs, after, root);
    }
    forall j | w.listed(docs, j) ensures w.listed(after, j) { }
  }

  ghost predicate SameRoot(cfg: Config, before: Documents, after: Documents, root: string)
  {
    RootView(cfg, after, root) == RootView(cfg, before, root) && RootJobs(cfg, after, root) == RootJobs(cfg, before, root)
  }

  /** The echo of the write is bound to the root it creates. */
  lemma CreatedIsTold(cfg: Config, docs: Documents, job: Job)
    requires Safe(cfg) && Admissible(cfg, docs) && WellMade(cfg.setup.profile, job) && job.writes != []
    requires !IsListed(docs, cfg.setup.rootType, job.key)
    ensures Pledge(cfg, WriteBack(docs, cfg.setup.rootType, job.key, job.writes), Echo(job.key), job.key.iri)
  {
    CreatedFollows(cfg, docs, job);
    WriterOwnsSlot(cfg.setup.profile, job);
  }

  lemma WriteIsKept(cfg: Config, docs: Documents, job: Job)
    requires Safe(cfg) && Admissible(cfg, docs) && WellMade(cfg.setup.profile, job) && job.writes != []
    ensures WriteKeeps(WorldOf(cfg), docs, WriteBack(docs, cfg.setup.rootType, job.key, job.writes), job)
  {
    if IsListed(docs, cfg.setup.rootType, job.key) {
      WriteIsEquivalent(cfg, docs, job);
    } else {
      WriteExtends(cfg, docs, job);
    }
  }

  lemma WriterOwnsSlot(profile: Profile, job: Job)
    requires WellMade(profile, job) && job.writes != []
    ensures OwnsSlot(profile, job.key.typeName)
  {
    var slots := ByStratum(profile);
    assert job.writes[0] in job.writes;
    var i :| 0 <= i < |slots| && slots[i].owner == Some(job.key.typeName) && slots[i].propertyName == job.writes[0].path;
    SameMembers(slots, profile);
    assert slots[i] in profile;
    var k :| 0 <= k < |profile| && profile[k] == slots[i];
    assert Owns(profile[k], job.key.typeName);
  }

  /**
   * A root that is removed while a run has it planned comes back: the run writes its outputs
   * after the removal, and they are all that the new document has.
   */
  lemma RemovedRootReturns(cfg: Config, s: State, docs: Documents, event: ChangeEvent)
    requires Safe(cfg) && Admissible(cfg, docs) && event.remove && s.sched.running.Some? && s.todo != []
    requires WellMade(cfg.setup.profile, s.todo[0]) && s.todo[0].writes != []
    requires !IsListed(docs, cfg.setup.rootType, s.todo[0].key) && !Settled(s.store, s.todo[0])
    ensures Legal(WorldOf(cfg), s, Edit(docs, event))
    ensures var removed := Engine.Next(WorldOf(cfg), s, Edit(docs, event));
      && Legal(WorldOf(cfg), removed, Process)
      && var after, key := Engine.Next(WorldOf(cfg), removed, Process).docs, s.todo[0].key;
         && key.iri !in IdsOf(docs.rows) && key.iri in IdsOf(after.rows)
         && ListedDoc(cfg, after, key.iri) == Some(WriteDoc(Blank(key), cfg.setup.rootType, key, s.todo[0].writes))
  {
    RemovalIsAnnounced(cfg, s, docs, event);
    CreatedRoot(cfg, docs, s.todo[0]);
  }

  // ----- events lead to the roots that show their entity -----

  lemma {:induction false} RootRefsWithin(cfg: Config, docs: Documents, roots: seq<string>, root: string)
    requires root in roots && RootView(cfg, docs, root).Some?
    ensures Within(RefsIn(RootView(cfg, docs, root).value), RefsOfRoots(cfg, docs, roots))
  {
    if roots[0] != root {
      assert roots == [roots[0]] + roots[1..];
      RootRefsWithin(cfg, docs, roots[1..], root);
    }
  }

  /** What a root's document shows, the root depends on: references lead from the entity up to it. */
  lemma ShownIsDependedOn(cfg: Config, docs: Documents, key: Key, root: string)
    requires Admissible(cfg, docs) && ShownBy(cfg, docs, key, root)
    ensures DependsOn(RefsOf(cfg, docs), cfg.setup.edges, key.typeName, [key.iri], cfg.setup.rootType, root)
  {
    RootRefsWithin(cfg, docs, IdsOf(docs.rows), root);
    EntityIsReferenced(RefsOf(cfg, docs), cfg.setup.edges, cfg.setup.rootType, root, RootView(cfg, docs, root).value, key);
  }

  /** The warm an event leads to covers every root the event is bound to. */
  lemma PledgeIsCovered(cfg: Config, docs: Documents, event: ChangeEvent, root: string)
    requires Safe(cfg) && Admissible(cfg, docs) && Pledge(cfg, docs, event, root)
    ensures Requested(SetupAt(cfg, docs), event).Some? && Covers(Requested(SetupAt(cfg, docs), event).value, root)
  {
    if !event.remove {
      var setup := SetupAt(cfg, docs);
      ShownIsDependedOn(cfg, docs, Key(event.typeName, event.entityIRI), root);
      PlannerOfIsExact(RefsOf(cfg, docs), cfg.setup.edges);
      assert Handled(setup, event.typeName);
      InvalidationCovers(setup, RefsOf(cfg, docs), event, root);
    }
  }

  lemma SameReaction(cfg: Config, docs: Documents, event: ChangeEvent)
    ensures React(SetupAt(cfg, docs), event) == React(cfg.setup, event)
  {
  }

  /** A planned target's type owns a slot. */
  lemma PlannedTypeOwnsSlot(profile: Profile, o: Occurrence)
    requires o.entity.Obj? && JobOf(profile, o).writes != []
    ensures OwnsSlot(profile, o.typeName)
  {
    var w := JobOf(profile, o).writes[0];
    assert w in JobOf(profile, o).writes;
    WritesFingerprint(PlanSlots(profile, o.typeName), o.entity, JobOf(profile, o).fingerprint, w);
    var s :| s in PlanSlots(profile, o.typeName);
    PlanSlotsMember(profile, o.typeName, s);
    var i :| 0 <= i < |profile| && profile[i] == s;
    assert Owns(profile[i], o.typeName);
  }

  /** Evaluation adds and removes no entities: a target is an entity the root's document shows. */
  lemma TargetIsShown(cfg: Config, doc: Json, o: Occurrence)
    requires Safe(cfg) && GoodDoc(Slots(cfg), cfg.setup.rootType, doc)
    requires o in CalcTargets(Evaluated(cfg, doc), cfg.setup.profile)
    ensures Shows(ViewOf(Slots(cfg), [], StampType(doc, cfg.setup.rootType)), Key(o.typeName, o.iri))
  {
    var seen := TargetIsSeen(cfg.setup.profile, cfg.f, cfg.host, cfg.setup.rootType, doc, o);
    var all := EntityViews(ViewOf(Slots(cfg), [], StampType(doc, cfg.setup.rootType)));
    var i :| 0 <= i < |all| && all[i] == seen;
    assert Names(all[i], Key(o.typeName, o.iri));
  }

  /** A planned job is for a target whose type owns a slot. */
  lemma PlannedTarget(profile: Profile, e: Json, j: Job) returns (o: Occurrence)
    requires j in JobsOf(profile, e) && j.writes != []
    ensures o in CalcTargets(e, profile) && j.key == Key(o.typeName, o.iri) && OwnsSlot(profile, o.typeName)
  {
    TargetsAreRecords(profile, e);
    var k :| 0 <= k < |JobsOf(profile, e)| && JobsOf(profile, e)[k] == j;
    o := CalcTargets(e, profile)[k];
    PlannedTypeOwnsSlot(profile, o);
  }

  lemma EchoIsPledged(cfg: Config, docs: Documents, root: string, j: Job)
    requires Safe(cfg) && Admissible(cfg, docs) && j in RootJobs(cfg, docs, root) && j.writes != []
    ensures Pledge(cfg, docs, Echo(j.key), root)
  {
    var doc := ListedDoc(cfg, docs, root).value;
    assert GoodDoc(Slots(cfg), cfg.setup.rootType, doc) by {
      RootDocGood(Slots(cfg), cfg.setup.rootType, docs, cfg.depth, root);
    }
    var o := PlannedTarget(cfg.setup.profile, Evaluated(cfg, doc), j);
    assert Shows(RootView(cfg, docs, root).value, j.key) by { TargetIsShown(cfg, doc, o); }
  }

  /** The echo of every written target leads back to each root it was written for. */
  lemma EchoesLeadBack(cfg: Config, docs: Documents, root: string, j: Job)
    requires Safe(cfg) && Admissible(cfg, docs) && j in RootJobs(cfg, docs, root) && j.writes != []
    ensures Pledge(cfg, docs, Echo(j.key), root)
    ensures var request := Requested(SetupAt(cfg, docs), Echo(j.key)); request.Some? && Covers(request.value, root)
  {
    EchoIsPledged(cfg, docs, root, j);
    PledgeIsCovered(cfg, docs, Echo(j.key), root);
  }

  /** The real parts keep the machine's contract. */
  lemma WorldIsFaithful(cfg: Config)
    requires Safe(cfg)
    ensures Faithful(WorldOf(cfg))
  {
    var w := WorldOf(cfg);
    forall e ensures w.react(e).Request? ==> Proper(w.react(e).task) { RequestsAreProper(cfg.setup, e); }
    forall docs, task, root, j | Covers(task, root) && j in w.rootJobs(docs, root)
      ensures j in w.jobs(docs, task)
    {
      RunDoesRootJobs(cfg, docs, task, root, j);
    }
    forall docs, e, root | w.admissible(docs) && w.pledge(docs, e, root)
      ensures !w.react(e).Ignore? && (w.react(e).Request? ==> Covers(w.react(e).task, root))
    {
      PledgeIsCovered(cfg, docs, e, root);
      SameReaction(cfg, docs, e);
    }
    forall docs, root, j | w.admissible(docs) && j in w.rootJobs(docs, root) && j.writes != []
      ensures w.pledge(docs, Echo(j.key), root)
    {
      EchoesLeadBack(cfg, docs, root, j);
    }
    forall docs, task, j | j in w.jobs(docs, task) ensures w.made(j) {
      JobsAreWellMade(cfg.setup.profile, AllEvaluated(cfg, RawDocs(docs, Iris(task), cfg.depth)));
    }
    forall docs, task, j | w.admissible(docs) && j in w.jobs(docs, task) && j.writes != [] ensures w.listed(docs, j) {
      PassIsPresent(cfg.setup.profile, cfg.f, cfg.host, cfg.setup.rootType, docs, cfg.depth, Iris(task));
    }
    forall docs, j | w.admissible(docs) && w.made(j) && j.writes != [] ensures WriteKeeps(w, docs, w.dual(docs, j), j) {
      WriteIsKept(cfg, docs, j);
    }
  }

  /** A climb over the references of the documents at that moment is a legal step: it covers what its event is bound to. */
  lemma ClimbIsLegal(cfg: Config, s: State, i: nat)
    requires Safe(cfg) && Admissible(cfg, s.docs) && i < |s.climbs|
    requires cfg.setup.planner.Some? && React(cfg.setup, s.climbs[i]).StartClimb?
    ensures Legal(WorldOf(cfg), s, Climbed(i, ClimbedTask(SetupAt(cfg, s.docs), s.climbs[i])))
  {
    var setup, event := SetupAt(cfg, s.docs), s.climbs[i];
    SameReaction(cfg, s.docs, event);
    RequestsAreProper(setup, event);
    forall root | Pledge(cfg, s.docs, event, root) ensures Covers(ClimbedTask(setup, event), root) {
      PledgeIsCovered(cfg, s.docs, event, root);
    }
  }

  // ----- edits -----

  /** Listed roots stay listed, and their documents differ inside records of the entity only; it may be a new root. */
  ghost predicate EditOf(cfg: Config, before: Documents, after: Documents, key: Key)
  {
    forall root ::
      var v, w := RootView(cfg, before, root), RootView(cfg, after, root);
      if v.Some? then w.Some? && Edited(key, v.value, w.value)
      else w.Some? ==> key == Key(cfg.setup.rootType, root)
  }

  /** The same view is evaluated to the same jobs. */
  lemma SameViewSameJobs(cfg: Config, before: Documents, after: Documents, root: string)
    requires Safe(cfg) && Admissible(cfg, before) && Admissible(cfg, after)
    requires RootView(cfg, before, root) == RootView(cfg, after, root)
    ensures RootJobs(cfg, before, root) == RootJobs(cfg, after, root)
  {
    if RootView(cfg, before, root).Some? {
      var d, e := ListedDoc(cfg, before, root).value, ListedDoc(cfg, after, root).value;
      RootDocGood(Slots(cfg), cfg.setup.rootType, before, cfg.depth, root);
      RootDocGood(Slots(cfg), cfg.setup.rootType, after, cfg.depth, root);
      StampedIsTidy(Slots(cfg), cfg.setup.rootType, d);
      StampedIsTidy(Slots(cfg), cfg.setup.rootType, e);
      AllSlotsLive(cfg.setup.profile, cfg.host);
      SameInputsSameJobs(cfg.setup.profile, cfg.f, StampType(d, cfg.setup.rootType), StampType(e, cfg.setup.rootType));
    }
  }

  /** A root whose document was changed shows the changed entity. */
  lemma ChangedRootShows(cfg: Config, before: Documents, after: Documents, key: Key, root: string)
    requires Admissible(cfg, after) && EditOf(cfg, before, after, key)
    requires RootView(cfg, before, root) != RootView(cfg, after, root)
    ensures ShownBy(cfg, after, key, root)
  {
    var w := RootView(cfg, after, root).value;
    if RootView(cfg, before, root).Some? {
      EditedShows(key, RootView(cfg, before, root).value, w);
    } else {
      assert Names(EntityViews(w)[0], key);
    }
  }

  /**
   * An edit of one entity of a handled type is announced by its upsert: that event is bound to
   * every root whose jobs change, and to every root that an event under way loses by the edit.
   */
  lemma EditIsAnnounced(cfg: Config, s: State, docs: Documents, key: Key)
    requires Safe(cfg) && Admissible(cfg, s.docs) && Admissible(cfg, docs)
    requires Handled(cfg.setup, key.typeName) && EditOf(cfg, s.docs, docs, key)
    ensures Legal(WorldOf(cfg), s, Edit(docs, Echo(key)))
  {
    forall root | RootView(cfg, s.docs, root) != RootView(cfg, docs, root) ensures Pledge(cfg, docs, Echo(key), root) {
      ChangedRootShows(cfg, s.docs, docs, key, root);
    }
    forall root | RootJobs(cfg, docs, root) != RootJobs(cfg, s.docs, root) ensures Pledge(cfg, docs, Echo(key), root) {
      if RootView(cfg, s.docs, root) == RootView(cfg, docs, root) { SameViewSameJobs(cfg, s.docs, docs, root); }
    }
  }

  /** A removal announces whatever it changes: it leads to a full sweep. */
  lemma RemovalIsAnnounced(cfg: Config, s: State, docs: Documents, event: ChangeEvent)
    requires Admissible(cfg, docs) && event.remove
    ensures Legal(WorldOf(cfg), s, Edit(docs, event))
  {
    assert forall root :: Pledge(cfg, docs, event, root);
  }

  // ----- the whole system -----

  /** A list with every document a run may read. */
  ghost predicate ListsAll(docs: Documents, all: seq<Json>)
  {
    && (forall doc :: doc in docs.rows ==> doc in all)
    && (docs.deep.Some? ==> forall iri :: iri in docs.deep.value ==> docs.deep.value[iri] in all)
  }

  lemma SystemSettles(cfg: Config, docs: Documents, all: seq<Json>)
    requires cfg.canLoad && ListsAll(docs, all)
    requires CopiesAgree(cfg.setup.profile, AllEvaluated(cfg, all)) && CleanProfile(cfg.setup.profile)
    ensures Settling(WorldOf(cfg), docs, JobsOfDocs(cfg.setup.profile, AllEvaluated(cfg, all)))
  {
    var universe := JobsOfDocs(cfg.setup.profile, AllEvaluated(cfg, all));
    CopiesAgreeSettle(cfg.setup.profile, AllEvaluated(cfg, all));
    forall task, j | j in WorldOf(cfg).jobs(docs, task) ensures j in universe {
      TaskJobInUniverse(cfg, docs, all, task, j);
    }
  }

  lemma TaskJobInUniverse(cfg: Config, docs: Documents, all: seq<Json>, task: Task, j: Job)
    requires ListsAll(docs, all) && j in TaskJobs(cfg, docs, task)
    ensures j in JobsOfDocs(cfg.setup.profile, AllEvaluated(cfg, all))
  {
    var raw := RawDocs(docs, Iris(task), cfg.depth);
    var d := ConcatMember(JobLists(cfg.setup.profile, AllEvaluated(cfg, raw)), j);
    assert raw[d] in raw;
    SelectionSound(docs, cfg.depth, Iris(task), raw[d]);
    DocJobs(cfg, all, raw[d], j);
  }

  // ----- from the start of a worker -----

  /**
   * The start-up sweep is enough: when every root's document shows at the subscription what it
   * showed to the sweep, computed properties and sidecars apart, every root is fresh.
   */
  lemma SweepIsEnough(cfg: Config, docs: Documents, after: Documents, store: Statements)
    requires Safe(cfg) && Admissible(cfg, docs) && Admissible(cfg, after)
    requires CopiesAgree(cfg.setup.profile, AllEvaluated(cfg, RawDocs(docs, [], cfg.depth)))
    requires forall root :: RootView(cfg, after, root) == RootView(cfg, docs, root)
    ensures AllFreshNow(WorldOf(cfg), Subscribed(after, RunJobs(store, TaskJobs(cfg, docs, FULL_SWEEP), cfg.canLoad).store))
  {
    var w := WorldOf(cfg);
    WorldIsFaithful(cfg);
    CopiesAgreeSettle(cfg.setup.profile, AllEvaluated(cfg, RawDocs(docs, [], cfg.depth)));
    forall root ensures w.rootJobs(after, root) == w.rootJobs(docs, root) { SameViewSameJobs(cfg, docs, after, root); }
    UnchangedIsFresh(w, docs, after, store);
  }

  /**
   * A worker from its start, through any interleaving of edits and steps, with every write
   * asserted on the documents the next runs read. It subscribes at `k`, with the statements of
   * the sweep. It is fresh at rest in every schedule from there, if and only if every root is
   * fresh at `k`. Then, once the edits end, it comes to rest with every target of every listed
   * root computed from the documents as they are: those at the last edit, or at `l`, when a
   * run in flight has created roots again that were removed meanwhile.
   */
  lemma WorkerKeepsUpToDate(
      cfg: Config, f: nat -> Worker, m: nat, docs: Documents, store: Statements, warmOnStart: bool)
    returns (k: nat, l: nat)
    requires Safe(cfg) && cfg.canLoad && Admissible(cfg, docs)
    requires WorkerRun(WorldOf(cfg), f, m) && f(0) == Started(WorldOf(cfg), docs, store, warmOnStart)
    ensures f(k).Live? && Admissible(cfg, f(k).state.docs) && forall n :: 0 <= n < k ==> f(n).Sweeping?
    ensures var swept := if warmOnStart then RunJobs(store, TaskJobs(cfg, docs, FULL_SWEEP), cfg.canLoad).store else store;
      f(k).state == Subscribed(f(k).state.docs, swept)
    ensures FreshAtRest(WorldOf(cfg), f(k).state) <==> AllFreshNow(WorldOf(cfg), f(k).state)
    ensures l >= k && l >= m && f(l).Live?
    ensures AllFreshNow(WorldOf(cfg), f(k).state) ==> ComesToRest(cfg, f, if m > k then m else k, l)
  {
    var w := WorldOf(cfg);
    WorldIsFaithful(cfg);
    k := SubscribesOnce(w, f, m, docs, store, warmOnStart);
    FreshAtRestIff(w, f(k).state.docs, f(k).state.store);
    l := if m > k then m else k;
    StaysLive(w, f, m, k, l);
    if AllFreshNow(w, f(k).state) {
      l := StaysFresh(w, f, m, k);
      forall all | ListsAll(f(l).state.docs, all) && CopiesAgree(cfg.setup.profile, AllEvaluated(cfg, all))
        ensures RestsUpToDate(cfg, f, l)
      {
        SystemSettles(cfg, f(l).state.docs, all);
        assert Settling(w, StateAt(f, l).docs, JobsOfDocs(cfg.setup.profile, AllEvaluated(cfg, all)));
        RestIsUpToDate(cfg, f, l);
      }
    }
  }

  lemma RestIsUpToDate(cfg: Config, f: nat -> Worker, l: nat)
    requires f(l).Live? && RestsFresh(WorldOf(cfg), f, l)
    ensures RestsUpToDate(cfg, f, l)
  {
    var w := WorldOf(cfg);
    var n: nat :| n >= l && IsFreshRest(w, f, l, n);
    var s := f(n).state;
    forall root ensures RootUpToDate(cfg, f(l).state.docs, s, root) {
      assert w.rootJobs(s.docs, root) == w.rootJobs(f(l).state.docs, root);
      forall j | j in RootJobs(cfg, s.docs, root) && j.writes != [] ensures Settled(s.store, j) {
        assert j in w.rootJobs(s.docs, root);
      }
    }
  }

  /** The root's targets are fresh, over inputs that are those of the given documents. */
  ghost predicate RootUpToDate(cfg: Config, docs: Documents, s: State, root: string)
  {
    && RootJobs(cfg, s.docs, root) == RootJobs(cfg, docs, root)
    && forall j :: j in RootJobs(cfg, s.docs, root) && j.writes != [] ==> Settled(s.store, j)
  }

  ghost predicate UpToDate(cfg: Config, docs: Documents, s: State)
  {
    forall root :: RootUpToDate(cfg, docs, s, root)
  }

  /** The worker comes to rest, up to date with the documents of moment l. */
  ghost predicate RestsUpToDate(cfg: Config, f: nat -> Worker, l: nat)
    requires f(l).Live?
  {
    exists n: nat :: n >= l && f(n).Live? && Quiescent(f(n).state) && UpToDate(cfg, f(l).state.docs, f(n).state)
  }

  /**
   * When copies of an entity in several roots agree, the worker comes to rest; moment l is that
   * of the last edit, unless a run in flight then writes to roots that have been removed.
   */
  ghost predicate ComesToRest(cfg: Config, f: nat -> Worker, last: nat, l: nat)
    requires f(l).Live?
  {
    && (f(last).Live? && AllListed(WorldOf(cfg), f(last).state) ==> l == last)
    && forall all :: ListsAll(f(l).state.docs, all) && CopiesAgree(cfg.setup.profile, AllEvaluated(cfg, all)) ==>
         RestsUpToDate(cfg, f, l)
  }
}
