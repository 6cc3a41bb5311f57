/**
 * The engine as a step machine: external edits, event delivery, climbs, run starts, one
 * target at a time, echoes of its own writes, and run ends, in any interleaving
 * (packages/calc-engine/src/delta.ts:166-301, packages/calc-engine/src/warm.ts:349-387).
 */
module Engine {
  import opened Strings
  import opened Json
  import opened Roots
  import opened Statements
  import opened Scheduler
  import opened Invalidation

  /**
   * What the machine is parametric in: the jobs of a run over some documents, the jobs of
   * one root, the handler's reaction, the roots an event is bound to bring a warm for, the
   * documents that may occur, what a write makes of them, the jobs that may occur, and those
   * whose entity the documents have. A write for another entity creates it.
   */
  datatype World = World(
    jobs: (Documents, Task) -> seq<Job>,
    rootJobs: (Documents, string) -> seq<Job>,
    react: ChangeEvent -> Reaction,
    pledge: (Documents, ChangeEvent, string) -> bool,
    admissible: Documents -> bool,
    dual: (Documents, Job) -> Documents,
    made: Job -> bool,
    listed: (Documents, Job) -> bool,
    canLoad: bool)

  /** `todo` is what the run in flight still has to do; it was planned when the run started. */
  datatype State = State(
    docs: Documents, store: Statements, events: seq<ChangeEvent>, climbs: seq<ChangeEvent>, sched: Sched, todo: seq<Job>)

  datatype Step =
    | Edit(docs: Documents, event: ChangeEvent)
    | Deliver(i: nat)
    | Climbed(i: nat, task: Task)
    | ClimbFailed(i: nat)
    | Process
    | Finish
    | Abort

  function Echo(key: Key): ChangeEvent
  {
    ChangeEvent(false, key.typeName, key.iri)
  }

  function Echoes(keys: seq<Key>): (r: seq<ChangeEvent>)
    ensures |r| == |keys|
  {
    seq(|keys|, i requires 0 <= i < |keys| => Echo(keys[i]))
  }

  function AfterTrigger(w: World, s: State, task: Task): State
  {
    s.(sched := Triggered(s.sched, task), todo := if s.sched.running.Some? then s.todo else w.jobs(s.docs, task))
  }

  function AfterRun(w: World, s: State): State
  {
    s.(sched := Finished(s.sched),
       todo := if s.sched.queued.Some? then w.jobs(s.docs, s.sched.queued.value) else [])
  }

  ghost predicate Legal(w: World, s: State, step: Step)
  {
    match step
    case Edit(docs, event) =>
      && w.admissible(docs)
      && (forall r :: w.rootJobs(docs, r) != w.rootJobs(s.docs, r) ==> w.pledge(docs, event, r))
      && (forall e, r :: (e in s.events || e in s.climbs) && w.pledge(s.docs, e, r) ==>
            w.pledge(docs, e, r) || w.pledge(docs, event, r))
    case Deliver(i) => i < |s.events|
    case Climbed(i, task) =>
      i < |s.climbs| && Proper(task) && forall r :: w.pledge(s.docs, s.climbs[i], r) ==> Covers(task, r)
    case ClimbFailed(i) => i < |s.climbs|
    case Process => s.sched.running.Some? && s.todo != []
    case Finish => s.sched.running.Some? && s.todo == []
    case Abort => s.sched.running.Some?
  }

  /** One target of the run in flight: skipped, or written to statements and documents with an echo. */
  function Processed(w: World, s: State): State
    requires s.todo != []
  {
    var t := RunJob(Tally(s.store, 0, 0, 0, []), s.todo[0], w.canLoad);
    s.(store := t.store, events := s.events + Echoes(t.echoes), todo := s.todo[1..],
       docs := if t.echoes == [] then s.docs else w.dual(s.docs, s.todo[0]))
  }

  function Delivered(w: World, s: State, i: nat): State
    requires i < |s.events|
  {
    var rest := s.(events := Without(s.events, i));
    match w.react(s.events[i])
    case Ignore => rest
    case Request(task) => AfterTrigger(w, rest, task)
    case StartClimb => rest.(climbs := rest.climbs + [s.events[i]])
  }

  function Next(w: World, s: State, step: Step): State
    requires Legal(w, s, step)
  {
    match step
    case Edit(docs, event) => s.(docs := docs, events := s.events + [event])
    case Deliver(i) => Delivered(w, s, i)
    case Climbed(i, task) => AfterTrigger(w, s.(climbs := Without(s.climbs, i)), task)
    case ClimbFailed(i) => s.(climbs := Without(s.climbs, i))
    case Process => Processed(w, s)
    case Finish => AfterRun(w, s)
    case Abort => AfterRun(w, s)
  }

  predicate Quiescent(s: State)
  {
    s.events == [] && s.climbs == [] && s.sched == IDLE
  }

  predicate Orderly(s: State)
  {
    && (s.sched.queued.Some? ==> s.sched.running.Some? && Proper(s.sched.queued.value))
    && (s.sched.running.None? ==> s.todo == [])
  }

  ghost predicate ProperReactions(w: World)
  {
    forall e :: w.react(e).Request? ==> Proper(w.react(e).task)
  }

  /** Documents that are the same to runs and to change events. */
  ghost predicate Equivalent(w: World, a: Documents, b: Documents)
  {
    && w.admissible(b)
    && (forall task :: w.jobs(b, task) == w.jobs(a, task))
    && (forall root :: w.rootJobs(b, root) == w.rootJobs(a, root))
    && (forall e, root :: w.pledge(b, e, root) == w.pledge(a, e, root))
    && (forall j :: w.listed(b, j) == w.listed(a, j))
  }

  /** Documents with a new root perhaps, which the event is bound to; nothing else is lost or changed. */
  ghost predicate Extends(w: World, before: Documents, after: Documents, event: ChangeEvent)
  {
    && w.admissible(after)
    && (forall r :: w.rootJobs(after, r) != w.rootJobs(before, r) ==> w.rootJobs(before, r) == [] && w.pledge(after, event, r))
    && (forall e, r :: w.pledge(before, e, r) ==> w.pledge(after, e, r))
    && (forall j :: w.listed(before, j) ==> w.listed(after, j))
  }

  /**
   * The contract of the parts: runs do the jobs of the roots they cover, reactions keep
   * their pledges, the echo of a write is bound to every root that materializes the entity,
   * what is planned is there, and the documents that carry a write have the jobs and
   * references they had before it, and a new root if the entity was not there.
   */
  ghost predicate Faithful(w: World)
  {
    && ProperReactions(w)
    && (forall docs, task, root, j :: Covers(task, root) && j in w.rootJobs(docs, root) ==> j in w.jobs(docs, task))
    && (forall docs, e, root :: w.admissible(docs) && w.pledge(docs, e, root) ==>
          !w.react(e).Ignore? && (w.react(e).Request? ==> Covers(w.react(e).task, root)))
    && (forall docs, root, j :: w.admissible(docs) && j in w.rootJobs(docs, root) && j.writes != []
          ==> w.pledge(docs, Echo(j.key), root))
    && (forall docs, task, j :: j in w.jobs(docs, task) ==> w.made(j))
    && (forall docs, task, j :: w.admissible(docs) && j in w.jobs(docs, task) && j.writes != [] ==> w.listed(docs, j))
    && (forall docs, j :: w.admissible(docs) && w.made(j) && j.writes != []
          ==> WriteKeeps(w, docs, w.dual(docs, j), j))
  }

  ghost predicate WriteKeeps(w: World, before: Documents, after: Documents, job: Job)
  {
    Extends(w, before, after, Echo(job.key)) && (w.listed(before, job) ==> Equivalent(w, before, after))
  }

  /** The run in flight writes to entities that are there: none of them was removed since it was planned. */
  ghost predicate AllListed(w: World, s: State)
  {
    forall j :: j in s.todo && j.writes != [] ==> w.listed(s.docs, j)
  }

  /** The documents may occur, and the run in flight has jobs that may occur. */
  ghost predicate Sane(w: World, s: State)
  {
    Orderly(s) && w.admissible(s.docs) && forall j :: j in s.todo ==> w.made(j)
  }

  lemma NextSane(w: World, s: State, step: Step)
    requires Faithful(w) && Sane(w, s) && Legal(w, s, step)
    ensures Sane(w, Next(w, s, step))
    ensures !step.Edit? && AllListed(w, s) ==> Equivalent(w, s.docs, Next(w, s, step).docs) && AllListed(w, Next(w, s, step))
  {
    NextOrderly(w, s, step);
    if step.Process? {
      assert s.todo == [s.todo[0]] + s.todo[1..];
      ProcessKeeps(w, s);
    }
  }

  /** A target leaves the documents as they are, or asserts a write on them. */
  lemma ProcessKeeps(w: World, s: State)
    requires Faithful(w) && Sane(w, s) && s.todo != []
    ensures Processed(w, s).docs == s.docs || WriteKeeps(w, s.docs, Processed(w, s).docs, s.todo[0])
    ensures Processed(w, s).docs != s.docs ==> s.todo[0].writes != []
  {
    assert s.todo[0] in s.todo;
  }

  lemma NextOrderly(w: World, s: State, step: Step)
    requires Orderly(s) && Legal(w, s, step) && ProperReactions(w)
    ensures Orderly(Next(w, s, step))
  {
    if step.Deliver? && w.react(s.events[step.i]).Request? {
      MergeCovers(s.sched.queued, w.react(s.events[step.i]).task, "");
    }
    if step.Climbed? {
      MergeCovers(s.sched.queued, step.task, "");
    }
  }

  /** Work remains as long as the system is not quiescent. */
  lemma SomeStepIsLegal(w: World, s: State) returns (step: Step)
    requires Orderly(s) && !Quiescent(s)
    ensures Legal(w, s, step) && !step.Edit? && !step.ClimbFailed? && !step.Abort?
  {
    if s.events != [] {
      step := Deliver(0);
    } else if s.climbs != [] {
      step := Climbed(0, FULL_SWEEP);
    } else if s.todo != [] {
      step := Process;
    } else {
      step := Finish;
    }
  }

  // ----- convergence -----

  predicate Unsettled(store: Statements, job: Job)
  {
    job.writes != [] && !Settled(store, job)
  }

  function UnsettledCount(store: Statements, jobs: seq<Job>): nat
  {
    if jobs == [] then 0
    else UnsettledCount(store, jobs[1..]) + if Unsettled(store, jobs[0]) then 1 else 0
  }

  /** All runs over the present documents do jobs of one agreeing universe, and can skip. */
  ghost predicate Settling(w: World, docs: Documents, universe: seq<Job>)
  {
    && w.canLoad && AllAgree(universe)
    && forall task, j :: j in w.jobs(docs, task) ==> j in universe
  }

  lemma EquivalentSettling(w: World, a: Documents, b: Documents, universe: seq<Job>)
    requires Settling(w, a, universe) && Equivalent(w, a, b)
    ensures Settling(w, b, universe)
  {
    forall task, j | j in w.jobs(b, task) ensures j in universe {
      assert j in w.jobs(a, task);
    }
  }

  predicate FromUniverse(universe: seq<Job>, todo: seq<Job>)
  {
    forall j :: j in todo ==> j in universe
  }

  /** Jobs left of a run that was planned before the last edit. */
  function Outdated(s: State, universe: seq<Job>): nat
  {
    if FromUniverse(universe, s.todo) then 0 else |s.todo|
  }

  function Weight(s: State): nat
  {
    4 * |s.events| + 3 * |s.climbs| + (if s.sched.queued.Some? then 2 else 0) + if s.sched.running.Some? then 1 else 0
  }

  datatype Measure = Measure(outdated: nat, unsettled: nat, weight: nat, left: nat)

  function MeasureOf(s: State, universe: seq<Job>): Measure
  {
    Measure(Outdated(s, universe), UnsettledCount(s.store, universe), Weight(s), |s.todo|)
  }

  predicate Below(a: Measure, b: Measure)
  {
    || a.outdated < b.outdated
    || (a.outdated == b.outdated && a.unsettled < b.unsettled)
    || (a.outdated == b.outdated && a.unsettled == b.unsettled && a.weight < b.weight)
    || (a.outdated == b.outdated && a.unsettled == b.unsettled && a.weight == b.weight && a.left < b.left)
  }

  /** Writing one job of the universe settles it and unsettles no other. */
  lemma {:induction false} WriteLowersCount(store: Statements, job: Job, jobs: seq<Job>)
    requires job.writes != [] && OneFingerprint(job) && forall j :: j in jobs ==> Agree(job, j)
    ensures var after := Stored(store, job.key, job.writes);
      && UnsettledCount(after, jobs) <= UnsettledCount(store, jobs)
      && (job in jobs && Unsettled(store, job) ==> UnsettledCount(after, jobs) < UnsettledCount(store, jobs))
  {
    if jobs != [] {
      var after := Stored(store, job.key, job.writes);
      assert jobs == [jobs[0]] + jobs[1..];
      WriteLowersCount(store, job, jobs[1..]);
      StoredSettles(store, job);
      if Settled(store, jobs[0]) {
        StoredKeepsSettled(store, job, jobs[0]);
      }
    }
  }

  lemma ProcessLowers(w: World, s: State, universe: seq<Job>)
    requires Settling(w, s.docs, universe) && s.todo != []
    ensures Below(MeasureOf(Processed(w, s), universe), MeasureOf(s, universe))
  {
    var job := s.todo[0];
    assert job in s.todo && s.todo == [job] + s.todo[1..];
    if FromUniverse(universe, s.todo) {
      assert job in universe && FromUniverse(universe, s.todo[1..]);
      if Unsettled(s.store, job) {
        WriteLowersCount(s.store, job, universe);
      }
    }
  }

  lemma TriggerLowers(w: World, before: State, s: State, task: Task, universe: seq<Job>)
    requires Settling(w, s.docs, universe) && Orderly(before)
    requires before.store == s.store && before.docs == s.docs && before.todo == s.todo && before.sched == s.sched
    requires Weight(before) >= Weight(s) + 3
    ensures Below(MeasureOf(AfterTrigger(w, s, task), universe), MeasureOf(before, universe))
  {
  }

  /** Without further edits every step, failures included, lowers the measure. */
  lemma StepLowers(w: World, s: State, step: Step, universe: seq<Job>)
    requires Settling(w, s.docs, universe) && Orderly(s) && Legal(w, s, step) && !step.Edit?
    ensures Below(MeasureOf(Next(w, s, step), universe), MeasureOf(s, universe))
  {
    match step
    case Deliver(i) =>
      var rest := s.(events := Without(s.events, i));
      if w.react(s.events[i]).Request? {
        TriggerLowers(w, s, rest, w.react(s.events[i]).task, universe);
      }
    case Climbed(i, task) =>
      TriggerLowers(w, s, s.(climbs := Without(s.climbs, i)), task, universe);
    case ClimbFailed(i) =>
    case Process => ProcessLowers(w, s, universe);
    case Finish => RunEndLowers(w, s, universe);
    case Abort => RunEndLowers(w, s, universe);
  }

  lemma RunEndLowers(w: World, s: State, universe: seq<Job>)
    requires Settling(w, s.docs, universe) && s.sched.running.Some?
    ensures Below(MeasureOf(AfterRun(w, s), universe), MeasureOf(s, universe))
  {
    if s.sched.queued.Some? {
      assert FromUniverse(universe, AfterRun(w, s).todo);
    }
  }

  /** s leads to t by a step that is no edit, or s is quiescent and nothing happens. */
  ghost predicate Leads(w: World, s: State, t: State)
  {
    || (Quiescent(s) && t == s)
    || exists step :: Legal(w, s, step) && !step.Edit? && t == Next(w, s, step)
  }

  ghost predicate Run(w: World, f: nat -> State)
  {
    forall i: nat :: Leads(w, f(i), f(i + 1))
  }

  lemma {:induction false} ConvergesFrom(w: World, f: nat -> State, universe: seq<Job>, i: nat)
    returns (n: nat)
    requires Run(w, f) && Faithful(w) && Sane(w, f(i)) && AllListed(w, f(i)) && Settling(w, f(i).docs, universe)
    ensures n >= i && Quiescent(f(n)) && Equivalent(w, f(i).docs, f(n).docs)
    decreases Outdated(f(i), universe), UnsettledCount(f(i).store, universe), Weight(f(i)), |f(i).todo|
  {
    if Quiescent(f(i)) {
      n := i;
    } else {
      assert Leads(w, f(i), f(i + 1));
      var step :| Legal(w, f(i), step) && !step.Edit? && f(i + 1) == Next(w, f(i), step);
      NextSane(w, f(i), step);
      StepLowers(w, f(i), step, universe);
      EquivalentSettling(w, f(i).docs, f(i + 1).docs, universe);
      n := ConvergesFrom(w, f, universe, i + 1);
    }
  }

  /** A step of a run with removed targets brings its end closer, or ends it. */
  lemma UnlistedStep(w: World, s: State, step: Step)
    requires Faithful(w) && Sane(w, s) && !AllListed(w, s) && Legal(w, s, step) && !step.Edit?
    ensures var t := Next(w, s, step);
      AllListed(w, t) || |t.todo| < |s.todo| || (|t.todo| == |s.todo| && Weight(t) < Weight(s))
  {
    assert s.todo != [] && s.sched.running.Some?;
    if step.Abort? { assert AllListed(w, Next(w, s, step)); }
  }

  /** After the last edit every run in flight comes to write to entities that are there only. */
  lemma {:induction false} ListedFrom(w: World, f: nat -> State, i: nat) returns (n: nat)
    requires Run(w, f) && Faithful(w) && Sane(w, f(i))
    ensures n >= i && Sane(w, f(n)) && AllListed(w, f(n)) && (AllListed(w, f(i)) ==> n == i)
    decreases if AllListed(w, f(i)) then 0 else 1, |f(i).todo|, Weight(f(i))
  {
    if AllListed(w, f(i)) {
      n := i;
    } else {
      assert Leads(w, f(i), f(i + 1));
      var step :| Legal(w, f(i), step) && !step.Edit? && f(i + 1) == Next(w, f(i), step);
      NextSane(w, f(i), step);
      UnlistedStep(w, f(i), step);
      n := ListedFrom(w, f, i + 1);
    }
  }

  /**
   * Self-trigger convergence: after the last external edit, in every schedule, with
   * failing runs and climbs or without, the engine reaches "not running, nothing queued",
   * although every echo run reads documents that carry what was just written. A run that was
   * planned before a removal may create removed roots again; from `k` on no run does.
   */
  lemma Converges(w: World, f: nat -> State) returns (k: nat)
    requires Run(w, f) && Faithful(w) && Sane(w, f(0))
    ensures AllListed(w, f(0)) ==> k == 0
    ensures forall universe :: Settling(w, f(k).docs, universe) ==>
              exists n: nat :: n >= k && Quiescent(f(n)) && Equivalent(w, f(k).docs, f(n).docs)
  {
    k := ListedFrom(w, f, 0);
    forall universe | Settling(w, f(k).docs, universe)
      ensures exists n: nat :: n >= k && Quiescent(f(n)) && Equivalent(w, f(k).docs, f(n).docs)
    {
      var n := ConvergesFrom(w, f, universe, k);
    }
  }

  // ----- at rest, everything is fresh -----

  /** Each job of the root is settled, or the run in flight is going to do it. */
  ghost predicate OnTrack(w: World, s: State, root: string)
  {
    forall j :: j in w.rootJobs(s.docs, root) && j.writes != [] ==> Settled(s.store, j) || j in s.todo
  }

  ghost predicate Pending(w: World, s: State, root: string)
  {
    || (exists e :: e in s.events && w.pledge(s.docs, e, root))
    || (exists e :: e in s.climbs && w.pledge(s.docs, e, root))
    || (s.sched.queued.Some? && Covers(s.sched.queued.value, root))
  }

  ghost predicate Accounted(w: World, s: State)
  {
    forall root :: Pending(w, s, root) || OnTrack(w, s, root)
  }

  lemma TriggerAccounts(w: World, s: State, task: Task, root: string)
    requires Faithful(w) && Sane(w, s) && Proper(task)
    requires Pending(w, s, root) || OnTrack(w, s, root) || Covers(task, root)
    ensures Pending(w, AfterTrigger(w, s, task), root) || OnTrack(w, AfterTrigger(w, s, task), root)
  {
    var after := AfterTrigger(w, s, task);
    if s.sched.running.Some? {
      MergeCovers(s.sched.queued, task, root);
      if e :| e in s.events && w.pledge(s.docs, e, root) { assert e in after.events; }
      if e :| e in s.climbs && w.pledge(s.docs, e, root) { assert e in after.climbs; }
    } else if Covers(task, root) {
      assert OnTrack(w, after, root);
    } else if Pending(w, s, root) {
      if e :| e in s.events && w.pledge(s.docs, e, root) { assert e in after.events; }
      if e :| e in s.climbs && w.pledge(s.docs, e, root) { assert e in after.climbs; }
    }
  }

  lemma WithoutMember<T>(s: seq<T>, i: nat, x: T)
    requires i < |s| && x in s
    ensures x in Without(s, i) || x == s[i]
  {
    assert s == s[..i] + [s[i]] + s[i + 1..];
  }

  lemma DeliverAccounts(w: World, s: State, i: nat, root: string)
    requires Faithful(w) && Sane(w, s) && i < |s.events|
    requires Pending(w, s, root) || OnTrack(w, s, root)
    ensures Pending(w, Delivered(w, s, i), root) || OnTrack(w, Delivered(w, s, i), root)
  {
    var e := s.events[i];
    var rest := s.(events := Without(s.events, i));
    var kept := Pending(w, rest, root) || OnTrack(w, rest, root);
    assert kept || w.pledge(s.docs, e, root) by {
      if x :| x in s.events && w.pledge(s.docs, x, root) { WithoutMember(s.events, i, x); }
      if x :| x in s.climbs && w.pledge(s.docs, x, root) { assert x in rest.climbs; }
    }
    match w.react(e)
    case Ignore =>
    case Request(task) => TriggerAccounts(w, rest, task, root);
    case StartClimb =>
      var after := Delivered(w, s, i);
      if w.pledge(s.docs, e, root) {
        assert e in after.climbs;
      } else {
        if x :| x in rest.events && w.pledge(s.docs, x, root) { assert x in after.events; }
        if x :| x in rest.climbs && w.pledge(s.docs, x, root) { assert x in after.climbs; }
      }
  }

  lemma ClimbedAccounts(w: World, s: State, i: nat, task: Task, root: string)
    requires Faithful(w) && Sane(w, s) && Legal(w, s, Climbed(i, task))
    requires Pending(w, s, root) || OnTrack(w, s, root)
    ensures Pending(w, Next(w, s, Climbed(i, task)), root) || OnTrack(w, Next(w, s, Climbed(i, task)), root)
  {
    var rest := s.(climbs := Without(s.climbs, i));
    assert Pending(w, rest, root) || OnTrack(w, rest, root) || Covers(task, root) by {
      if x :| x in s.climbs && w.pledge(s.docs, x, root) { WithoutMember(s.climbs, i, x); }
      if x :| x in s.events && w.pledge(s.docs, x, root) { assert x in rest.events; }
    }
    TriggerAccounts(w, rest, task, root);
  }

  /** A write touches the entry of its own entity only. */
  lemma OtherEntityStaysSettled(store: Statements, job: Job, other: Job)
    requires job.key != other.key && Settled(store, other)
    ensures Settled(Stored(store, job.key, job.writes), other)
  {
    assert Load(Stored(store, job.key, job.writes), other.key, PathsOf(other.writes))
        == Load(store, other.key, PathsOf(other.writes));
  }

  lemma ProcessAccounts(w: World, s: State, root: string)
    requires Faithful(w) && Sane(w, s) && s.todo != []
    requires Pending(w, s, root) || OnTrack(w, s, root)
    ensures Pending(w, Processed(w, s), root) || OnTrack(w, Processed(w, s), root)
  {
    var job, after := s.todo[0], Processed(w, s);
    ProcessKeeps(w, s);
    if Pending(w, s, root) {
      if e :| e in s.events && w.pledge(s.docs, e, root) { assert e in after.events && w.pledge(after.docs, e, root); }
      if e :| e in s.climbs && w.pledge(s.docs, e, root) { assert e in after.climbs && w.pledge(after.docs, e, root); }
    } else if after.store == s.store && after.events == s.events {
      KeepsTrack(w, s, root);
    } else {
      assert after.events[|s.events|] == Echo(job.key);
      assert Echo(job.key) in after.events;
      if !w.pledge(after.docs, Echo(job.key), root) { WriteKeepsTrack(w, s, root); }
    }
  }

  /** A write to an entity the root does not have leaves the root's jobs as they were. */
  lemma WriteKeepsTrack(w: World, s: State, root: string)
    requires Faithful(w) && Sane(w, s) && s.todo != [] && OnTrack(w, s, root) && s.todo[0].writes != []
    requires WriteKeeps(w, s.docs, Processed(w, s).docs, s.todo[0])
    requires !w.pledge(Processed(w, s).docs, Echo(s.todo[0].key), root)
    ensures OnTrack(w, Processed(w, s), root)
  {
    var job, after := s.todo[0], Processed(w, s);
    assert s.todo == [job] + s.todo[1..];
    assert w.rootJobs(after.docs, root) == w.rootJobs(s.docs, root);
    forall j | j in w.rootJobs(after.docs, root) && j.writes != []
      ensures Settled(after.store, j) || j in after.todo
    {
      assert w.pledge(after.docs, Echo(j.key), root);
      if Settled(s.store, j) { OtherEntityStaysSettled(s.store, job, j); }
    }
  }

  /** A skipped target was settled already. */
  lemma KeepsTrack(w: World, s: State, root: string)
    requires s.todo != [] && OnTrack(w, s, root)
    requires Processed(w, s).store == s.store && Processed(w, s).events == s.events
    ensures OnTrack(w, Processed(w, s), root)
  {
    var job := s.todo[0];
    assert s.todo == [job] + s.todo[1..];
    var t := RunJob(Tally(s.store, 0, 0, 0, []), job, w.canLoad);
    assert |Processed(w, s).events| == |s.events| + |t.echoes|;
  }

  lemma FinishAccounts(w: World, s: State, root: string)
    requires Faithful(w) && Sane(w, s) && s.todo == []
    requires Pending(w, s, root) || OnTrack(w, s, root)
    ensures Pending(w, AfterRun(w, s), root) || OnTrack(w, AfterRun(w, s), root)
  {
    var after := AfterRun(w, s);
    if e :| e in s.events && w.pledge(s.docs, e, root) { assert e in after.events; }
    if e :| e in s.climbs && w.pledge(s.docs, e, root) { assert e in after.climbs; }
    if s.sched.queued.Some? && Covers(s.sched.queued.value, root) {
      assert OnTrack(w, after, root);
    }
  }

  lemma EditAccounts(w: World, s: State, docs: Documents, event: ChangeEvent, root: string)
    requires Legal(w, s, Edit(docs, event)) && (Pending(w, s, root) || OnTrack(w, s, root))
    ensures Pending(w, Next(w, s, Edit(docs, event)), root) || OnTrack(w, Next(w, s, Edit(docs, event)), root)
  {
    var after := Next(w, s, Edit(docs, event));
    assert event in after.events;
    if e :| e in s.events && w.pledge(s.docs, e, root) {
      assert e in after.events;
    } else if e :| e in s.climbs && w.pledge(s.docs, e, root) {
      assert e in after.climbs;
    }
  }

  predicate Smooth(step: Step)
  {
    !step.ClimbFailed? && !step.Abort?
  }

  /** Edits, deliveries, climbs, targets and run ends keep every root accounted for. */
  lemma StepAccounts(w: World, s: State, step: Step)
    requires Faithful(w) && Sane(w, s) && Accounted(w, s) && Legal(w, s, step) && Smooth(step)
    ensures Accounted(w, Next(w, s, step))
  {
    forall root ensures Pending(w, Next(w, s, step), root) || OnTrack(w, Next(w, s, step), root) {
      match step
      case Edit(docs, event) => EditAccounts(w, s, docs, event, root);
      case Deliver(i) => DeliverAccounts(w, s, i, root);
      case Climbed(i, task) => ClimbedAccounts(w, s, i, task, root);
      case Process => ProcessAccounts(w, s, root);
      case Finish => FinishAccounts(w, s, root);
    }
  }

  /** Every root's planned targets hold statements computed from the present inputs. */
  ghost predicate AllFreshNow(w: World, s: State)
  {
    forall root, j :: j in w.rootJobs(s.docs, root) && j.writes != [] ==> Settled(s.store, j)
  }

  lemma RestIsFresh(w: World, s: State)
    requires Accounted(w, s) && Orderly(s) && Quiescent(s)
    ensures AllFreshNow(w, s)
  {
    forall root, j | j in w.rootJobs(s.docs, root) && j.writes != [] ensures Settled(s.store, j) {
      assert Pending(w, s, root) || OnTrack(w, s, root);
    }
  }

  /** One smooth step, or rest. */
  ghost predicate LeadsSmoothly(w: World, s: State, t: State, edits: bool)
  {
    || (Quiescent(s) && t == s)
    || exists step :: Legal(w, s, step) && Smooth(step) && (step.Edit? ==> edits) && t == Next(w, s, step)
  }

  /** Edits happen before step m only. */
  ghost predicate SmoothRun(w: World, f: nat -> State, m: nat)
  {
    forall i: nat :: LeadsSmoothly(w, f(i), f(i + 1), i < m)
  }

  lemma {:induction false} SmoothRunAccounts(w: World, f: nat -> State, m: nat, n: nat)
    requires Faithful(w) && SmoothRun(w, f, m) && Accounted(w, f(0)) && Sane(w, f(0))
    ensures Accounted(w, f(n)) && Sane(w, f(n))
  {
    if n > 0 {
      SmoothRunAccounts(w, f, m, n - 1);
      assert LeadsSmoothly(w, f(n - 1), f(n - 1 + 1), n - 1 < m);
      if !(Quiescent(f(n - 1)) && f(n) == f(n - 1)) {
        var step :| Legal(w, f(n - 1), step) && Smooth(step) && f(n) == Next(w, f(n - 1), step);
        NextSane(w, f(n - 1), step);
        StepAccounts(w, f(n - 1), step);
      }
    }
  }

  lemma {:induction false} ListedSmoothly(w: World, f: nat -> State, m: nat, i: nat) returns (n: nat)
    requires SmoothRun(w, f, m) && Faithful(w) && Sane(w, f(i)) && i >= m
    ensures n >= i && AllListed(w, f(n)) && (AllListed(w, f(i)) ==> n == i)
    decreases if AllListed(w, f(i)) then 0 else 1, |f(i).todo|, Weight(f(i))
  {
    if AllListed(w, f(i)) {
      n := i;
    } else {
      assert LeadsSmoothly(w, f(i), f(i + 1), i < m);
      var step :| Legal(w, f(i), step) && Smooth(step) && !step.Edit? && f(i + 1) == Next(w, f(i), step);
      NextSane(w, f(i), step);
      UnlistedStep(w, f(i), step);
      n := ListedSmoothly(w, f, m, i + 1);
    }
  }

  /**
   * Live invalidation is correct. From any state that accounts for every root, through any
   * interleaving of edits and engine steps: once the edits end, the engine comes to rest, and
   * then every target of every root is materialized from the documents as they are. Up to `k`
   * a run planned before a removal may create removed roots again, as documents of outputs only.
   */
  lemma EventuallyFresh(w: World, f: nat -> State, m: nat) returns (k: nat)
    requires Faithful(w) && SmoothRun(w, f, m) && Accounted(w, f(0)) && Sane(w, f(0))
    ensures k >= m && (AllListed(w, f(m)) ==> k == m)
    ensures forall universe :: Settling(w, f(k).docs, universe) ==>
              exists n: nat :: n >= k && Quiescent(f(n)) && Equivalent(w, f(k).docs, f(n).docs) && AllFreshNow(w, f(n))
  {
    SmoothRunAccounts(w, f, m, m);
    k := ListedSmoothly(w, f, m, m);
    SmoothRunAccounts(w, f, m, k);
    forall universe | Settling(w, f(k).docs, universe)
      ensures exists n: nat :: n >= k && Quiescent(f(n)) && Equivalent(w, f(k).docs, f(n).docs) && AllFreshNow(w, f(n))
    {
      var n := ConvergesSmoothly(w, f, m, universe, k);
      SmoothRunAccounts(w, f, m, n);
      RestIsFresh(w, f(n));
    }
  }

  lemma {:induction false} ConvergesSmoothly(
      w: World, f: nat -> State, m: nat, universe: seq<Job>, i: nat) returns (n: nat)
    requires SmoothRun(w, f, m) && Faithful(w) && i >= m
    requires Sane(w, f(i)) && AllListed(w, f(i)) && Settling(w, f(i).docs, universe)
    ensures n >= i && Quiescent(f(n)) && Equivalent(w, f(i).docs, f(n).docs)
    decreases Outdated(f(i), universe), UnsettledCount(f(i).store, universe), Weight(f(i)), |f(i).todo|
  {
    if Quiescent(f(i)) {
      n := i;
    } else {
      assert LeadsSmoothly(w, f(i), f(i + 1), i < m);
      var step :| Legal(w, f(i), step) && Smooth(step) && !step.Edit? && f(i + 1) == Next(w, f(i), step);
      NextSane(w, f(i), step);
      StepLowers(w, f(i), step, universe);
      EquivalentSettling(w, f(i).docs, f(i + 1).docs, universe);
      n := ConvergesSmoothly(w, f, m, universe, i + 1);
    }
  }

  // ----- without loadStatements the echo loop never ends -----

  ghost predicate Alive(w: World, s: State, root: string, job: Job)
  {
    Pending(w, s, root) || job in s.todo
  }

  lemma TriggerAlive(w: World, s: State, task: Task, root: string, job: Job)
    requires Faithful(w) && Sane(w, s) && Proper(task) && job in w.rootJobs(s.docs, root)
    requires Alive(w, s, root, job) || Covers(task, root)
    ensures Alive(w, AfterTrigger(w, s, task), root, job)
  {
    var after := AfterTrigger(w, s, task);
    if s.sched.running.Some? {
      MergeCovers(s.sched.queued, task, root);
    }
    if e :| e in s.events && w.pledge(s.docs, e, root) { assert e in after.events; }
    if e :| e in s.climbs && w.pledge(s.docs, e, root) { assert e in after.climbs; }
  }

  lemma ProcessAlive(w: World, s: State, root: string, job: Job)
    requires Faithful(w) && Sane(w, s) && !w.canLoad && s.todo != []
    requires job in w.rootJobs(s.docs, root) && job.writes != [] && Alive(w, s, root, job)
    ensures Alive(w, Processed(w, s), root, job) && job in w.rootJobs(Processed(w, s).docs, root)
  {
    var after := Processed(w, s);
    assert s.todo == [s.todo[0]] + s.todo[1..];
    ProcessKeeps(w, s);
    assert w.rootJobs(after.docs, root) == w.rootJobs(s.docs, root);
    if e :| e in s.events && w.pledge(s.docs, e, root) { assert e in after.events && w.pledge(after.docs, e, root); }
    if e :| e in s.climbs && w.pledge(s.docs, e, root) { assert e in after.climbs && w.pledge(after.docs, e, root); }
    if s.todo[0] == job {
      assert after.events[|s.events|] == Echo(job.key);
      assert Echo(job.key) in after.events && w.pledge(after.docs, Echo(job.key), root);
    }
  }

  lemma StepAlive(w: World, s: State, step: Step, root: string, job: Job)
    requires Faithful(w) && Sane(w, s) && !w.canLoad && Legal(w, s, step) && Smooth(step) && !step.Edit?
    requires job in w.rootJobs(s.docs, root) && job.writes != [] && Alive(w, s, root, job)
    ensures Alive(w, Next(w, s, step), root, job) && job in w.rootJobs(Next(w, s, step).docs, root)
  {
    var after := Next(w, s, step);
    match step
    case Deliver(i) =>
      var e := s.events[i];
      var rest := s.(events := Without(s.events, i));
      assert Alive(w, rest, root, job) || w.pledge(s.docs, e, root) by {
        if x :| x in s.events && w.pledge(s.docs, x, root) { WithoutMember(s.events, i, x); }
        if x :| x in s.climbs && w.pledge(s.docs, x, root) { assert x in rest.climbs; }
      }
      if w.react(e).Request? {
        TriggerAlive(w, rest, w.react(e).task, root, job);
      } else {
        if x :| x in rest.events && w.pledge(s.docs, x, root) { assert x in after.events; }
        if x :| x in rest.climbs && w.pledge(s.docs, x, root) { assert x in after.climbs; }
        if w.pledge(s.docs, e, root) { assert e in after.climbs; }
      }
    case Climbed(i, task) =>
      var rest := s.(climbs := Without(s.climbs, i));
      assert Alive(w, rest, root, job) || Covers(task, root) by {
        if x :| x in s.climbs && w.pledge(s.docs, x, root) { WithoutMember(s.climbs, i, x); }
        if x :| x in s.events && w.pledge(s.docs, x, root) { assert x in rest.events; }
      }
      TriggerAlive(w, rest, task, root, job);
    case Process => ProcessAlive(w, s, root, job);
    case Finish =>
      if e :| e in s.events && w.pledge(s.docs, e, root) { assert e in after.events; }
      if e :| e in s.climbs && w.pledge(s.docs, e, root) { assert e in after.climbs; }
  }

  lemma StepsOnAlive(w: World, s: State, t: State, root: string, job: Job)
    requires Faithful(w) && Sane(w, s) && !w.canLoad && LeadsSmoothly(w, s, t, false)
    requires job in w.rootJobs(s.docs, root) && job.writes != [] && Alive(w, s, root, job) && !Quiescent(s)
    ensures Sane(w, t) && job in w.rootJobs(t.docs, root) && Alive(w, t, root, job)
  {
    var step :| Legal(w, s, step) && Smooth(step) && !step.Edit? && t == Next(w, s, step);
    NextSane(w, s, step);
    StepAlive(w, s, step, root, job);
  }

  /**
   * Why `loadStatements` matters: without it, once a root with a planned target has been
   * triggered, the engine never comes to rest in any schedule without failures.
   */
  lemma {:induction false} NeverRestsWithoutLoad(
      w: World, f: nat -> State, root: string, job: Job, n: nat)
    requires Faithful(w) && Sane(w, f(0)) && !w.canLoad && SmoothRun(w, f, 0)
    requires job in w.rootJobs(f(0).docs, root) && job.writes != [] && Alive(w, f(0), root, job)
    ensures Sane(w, f(n)) && job in w.rootJobs(f(n).docs, root) && Alive(w, f(n), root, job) && !Quiescent(f(n))
  {
    if n > 0 {
      NeverRestsWithoutLoad(w, f, root, job, n - 1);
      assert LeadsSmoothly(w, f(n - 1), f(n - 1 + 1), n - 1 < 0);
      StepsOnAlive(w, f(n - 1), f(n), root, job);
    }
  }
}
