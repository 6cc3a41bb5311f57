/**
 * The start of a worker (packages/calc-worker/src/createCalcWorker.ts:45-75): a full sweep
 * first, and the subscription only when the sweep is done. Until then nobody hears of changes.
 */
module Startup {
  import opened Json
  import opened Roots
  import opened Statements
  import opened Scheduler
  import opened Engine

  /** A worker that sweeps, with what is left of the sweep, or one that has subscribed. */
  datatype Worker =
    | Sweeping(docs: Documents, store: Statements, todo: seq<Job>)
    | Live(state: State)

  /** A new subscription: no event has reached it, and nothing runs. */
  function Subscribed(docs: Documents, store: Statements): State
  {
    State(docs, store, [], [], IDLE, [])
  }

  /** `createCalcWorker`: the sweep reads the documents of all roots, unless it is switched off. */
  function Started(w: World, docs: Documents, store: Statements, warmOnStart: bool): Worker
  {
    if warmOnStart then Sweeping(docs, store, w.jobs(docs, FULL_SWEEP)) else Live(Subscribed(docs, store))
  }

  /** One target of the sweep: skipped, or written to statements and documents. */
  function Swept(w: World, p: Worker): Worker
    requires p.Sweeping? && p.todo != []
  {
    var t := RunJob(Tally(p.store, 0, 0, 0, []), p.todo[0], w.canLoad);
    Sweeping(if t.echoes == [] then p.docs else w.dual(p.docs, p.todo[0]), t.store, p.todo[1..])
  }

  /** An edit nobody hears of, a target, or the subscription; then the steps of the engine. */
  ghost predicate WorkerLeads(w: World, p: Worker, q: Worker, edits: bool)
  {
    match p
    case Sweeping(docs, store, todo) =>
      || (edits && q.Sweeping? && w.admissible(q.docs) && q == p.(docs := q.docs))
      || (todo != [] && q == Swept(w, p))
      || (todo == [] && q == Live(Subscribed(docs, store)))
    case Live(s) => q.Live? && LeadsSmoothly(w, s, q.state, edits)
  }

  /** Edits happen before step m only. */
  ghost predicate WorkerRun(w: World, f: nat -> Worker, m: nat)
  {
    forall i: nat :: WorkerLeads(w, f(i), f(i + 1), i < m)
  }

  // ----- the sweep -----

  /** The sweep so far: what it has left, and the statements it leaves whatever is edited. */
  ghost predicate OnSweep(w: World, jobs: seq<Job>, store: Statements, p: Worker)
  {
    && p.Sweeping? && w.admissible(p.docs) && |p.todo| <= |jobs|
    && p.todo == jobs[|jobs| - |p.todo|..]
    && p.store == RunJobs(store, jobs[..|jobs| - |p.todo|], w.canLoad).store
  }

  ghost predicate AllMade(w: World, jobs: seq<Job>)
  {
    forall j :: j in jobs ==> w.made(j)
  }

  lemma SweptStore(store: Statements, jobs: seq<Job>, n: nat, skipFresh: bool)
    requires n < |jobs|
    ensures RunJob(Tally(RunJobs(store, jobs[..n], skipFresh).store, 0, 0, 0, []), jobs[n], skipFresh).store
         == RunJobs(store, jobs[..n + 1], skipFresh).store
  {
    assert jobs[..n + 1][..n] == jobs[..n];
  }

  lemma SweptOne(w: World, jobs: seq<Job>, store: Statements, p: Worker)
    requires Faithful(w) && AllMade(w, jobs) && OnSweep(w, jobs, store, p) && p.todo != []
    ensures OnSweep(w, jobs, store, Swept(w, p))
  {
    var n := |jobs| - |p.todo|;
    assert p.todo[0] == jobs[n] && jobs[n] in jobs;
    SweptStore(store, jobs, n, w.canLoad);
    assert jobs[n..][1..] == jobs[n + 1..];
    SweptDocs(w, p, jobs[n]);
  }

  lemma SweptDocs(w: World, p: Worker, job: Job)
    requires Faithful(w) && p.Sweeping? && w.admissible(p.docs) && p.todo != [] && p.todo[0] == job && w.made(job)
    ensures w.admissible(Swept(w, p).docs)
  {
    if Swept(w, p).docs != p.docs { assert WriteKeeps(w, p.docs, w.dual(p.docs, job), job); }
  }

  /** The sweep ends, and the worker subscribes with the statements of a pass over what the sweep read. */
  lemma {:induction false} SweepEnds(
      w: World, f: nat -> Worker, m: nat, jobs: seq<Job>, store: Statements, i: nat) returns (k: nat)
    requires Faithful(w) && AllMade(w, jobs) && WorkerRun(w, f, m) && OnSweep(w, jobs, store, f(i))
    ensures k > i && f(k).Live? && w.admissible(f(k).state.docs)
    ensures f(k).state == Subscribed(f(k).state.docs, RunJobs(store, jobs, w.canLoad).store)
    ensures forall n :: i <= n < k ==> f(n).Sweeping?
    decreases if i < m then m - i else 0, |f(i).todo|
  {
    assert WorkerLeads(w, f(i), f(i + 1), i < m);
    if f(i + 1).Live? {
      k := i + 1;
      assert jobs[..|jobs|] == jobs;
    } else {
      if f(i).todo != [] && f(i + 1) == Swept(w, f(i)) { SweptOne(w, jobs, store, f(i)); }
      k := SweepEnds(w, f, m, jobs, store, i + 1);
    }
  }

  // ----- from the subscription on -----

  /** The states of a worker once it has subscribed. */
  function StateAt(f: nat -> Worker, n: nat): State
  {
    if f(n).Live? then f(n).state else Subscribed(Documents([], None), map[])
  }

  function Tail(f: nat -> Worker, k: nat): nat -> State
  {
    (n: nat) => StateAt(f, k + n)
  }

  lemma {:induction false} StaysLive(w: World, f: nat -> Worker, m: nat, k: nat, n: nat)
    requires WorkerRun(w, f, m) && f(k).Live? && n >= k
    ensures f(n).Live?
  {
    if n > k {
      StaysLive(w, f, m, k, n - 1);
      assert WorkerLeads(w, f(n - 1), f(n - 1 + 1), n - 1 < m);
    }
  }

  lemma TailRuns(w: World, f: nat -> Worker, m: nat, k: nat)
    requires WorkerRun(w, f, m) && f(k).Live?
    ensures SmoothRun(w, Tail(f, k), if m > k then m - k else 0)
  {
    forall i: nat ensures LeadsSmoothly(w, Tail(f, k)(i), Tail(f, k)(i + 1), i < if m > k then m - k else 0) {
      var here, there := k + i, k + (i + 1);
      StaysLive(w, f, m, k, here);
      StaysLive(w, f, m, k, there);
      assert there == here + 1 && WorkerLeads(w, f(here), f(here + 1), here < m);
      assert Tail(f, k)(i) == StateAt(f, here) && Tail(f, k)(i + 1) == StateAt(f, there);
    }
  }

  /** A worker is right from a state on if it is fresh whenever it rests, whatever happens. */
  ghost predicate FreshAtRest(w: World, s: State)
  {
    forall f: nat -> State, m: nat, n: nat :: SmoothRun(w, f, m) && f(0) == s && Quiescent(f(n)) ==> AllFreshNow(w, f(n))
  }

  lemma FreshIsAccounted(w: World, s: State)
    requires AllFreshNow(w, s)
    ensures Accounted(w, s)
  {
  }

  /**
   * A worker that has subscribed is fresh at rest in every schedule, if and only if every root
   * is fresh at that moment: what changed before is never announced.
   */
  lemma FreshAtRestIff(w: World, docs: Documents, store: Statements)
    requires Faithful(w) && w.admissible(docs)
    ensures FreshAtRest(w, Subscribed(docs, store)) <==> AllFreshNow(w, Subscribed(docs, store))
  {
    var s := Subscribed(docs, store);
    if FreshAtRest(w, s) {
      var still: nat -> State := (n: nat) => s;
      assert SmoothRun(w, still, 0) && still(0) == s && Quiescent(still(0));
    }
    if AllFreshNow(w, s) {
      FreshIsAccounted(w, s);
      forall f: nat -> State, m: nat, n: nat | SmoothRun(w, f, m) && f(0) == s && Quiescent(f(n))
        ensures AllFreshNow(w, f(n))
      {
        SmoothRunAccounts(w, f, m, n);
        RestIsFresh(w, f(n));
      }
    }
  }

  /** The sweep leaves every root fresh whose jobs are still those it read. */
  lemma UnchangedIsFresh(w: World, before: Documents, after: Documents, store: Statements)
    requires Faithful(w) && AllAgree(w.jobs(before, FULL_SWEEP))
    requires forall r :: w.rootJobs(after, r) == w.rootJobs(before, r)
    ensures AllFreshNow(w, Subscribed(after, RunJobs(store, w.jobs(before, FULL_SWEEP), w.canLoad).store))
  {
    var jobs := w.jobs(before, FULL_SWEEP);
    forall r, j | j in w.rootJobs(after, r) && j.writes != []
      ensures Settled(RunJobs(store, jobs, w.canLoad).store, j)
    {
      assert Covers(FULL_SWEEP, r) && j in w.rootJobs(before, r);
      assert j in jobs;
      var k :| 0 <= k < |jobs| && jobs[k] == j;
      RunSettles(store, jobs, w.canLoad, k);
    }
  }

  // ----- a sweep over a store without statements -----

  lemma {:induction false} RecordedWasPlanned(jobs: seq<Job>, skipFresh: bool, key: Key, path: string)
    requires forall j :: j in jobs ==> OneFingerprint(j)
    requires var after := RunJobs(map[], jobs, skipFresh).store; key in after && path in after[key]
    ensures WasPlanned(jobs, key, RunJobs(map[], jobs, skipFresh).store[key][path])
  {
    var n := |jobs| - 1;
    var before, job := RunJobs(map[], jobs[..n], skipFresh).store, jobs[n];
    assert jobs == jobs[..n] + [job];
    if key in before && path in before[key] {
      RecordedWasPlanned(jobs[..n], skipFresh, key, path);
      PlannedByMore(jobs[..n], job, key, before[key][path]);
    }
    if RunJobs(map[], jobs, skipFresh).store != before { StoredWasPlanned(before, jobs[..n], job, key, path); }
  }

  lemma PlannedByMore(jobs: seq<Job>, job: Job, key: Key, nodes: seq<Statement>)
    requires WasPlanned(jobs, key, nodes)
    ensures WasPlanned(jobs + [job], key, nodes)
  {
    var j :| j in jobs && j.key == key && j.fingerprint == nodes[|nodes| - 1].fingerprint;
    assert j in jobs + [job];
  }

  lemma StoredWasPlanned(before: Statements, jobs: seq<Job>, job: Job, key: Key, path: string)
    requires OneFingerprint(job)
    requires var after := Stored(before, job.key, job.writes); key in after && path in after[key]
    requires key in before && path in before[key] ==> WasPlanned(jobs + [job], key, before[key][path])
    ensures WasPlanned(jobs + [job], key, Stored(before, job.key, job.writes)[key][path])
  {
    if job.key == key {
      RecordPath(if key in before then before[key] else map[], job.writes, path);
      assert job in jobs + [job];
    }
  }

  ghost predicate WasPlanned(jobs: seq<Job>, key: Key, nodes: seq<Statement>)
  {
    nodes != [] && exists j :: j in jobs && j.key == key && j.fingerprint == nodes[|nodes| - 1].fingerprint
  }

  /** A sweep without earlier statements settles the fingerprints it has planned only. */
  lemma SettledWasPlanned(jobs: seq<Job>, skipFresh: bool, j: Job)
    requires forall i :: i in jobs ==> OneFingerprint(i)
    requires Settled(RunJobs(map[], jobs, skipFresh).store, j)
    ensures exists i :: i in jobs && i.key == j.key && i.fingerprint == j.fingerprint
  {
    var after := RunJobs(map[], jobs, skipFresh).store;
    var existing := Load(after, j.key, PathsOf(j.writes));
    var p :| p in existing;
    RecordedWasPlanned(jobs, skipFresh, j.key, p);
  }

  /** One entity and one fingerprint stand for one job, before the edits and after. */
  ghost predicate JobsFollow(w: World, before: Documents, after: Documents)
  {
    forall i, j, r ::
      i in w.jobs(before, FULL_SWEEP) && j in w.rootJobs(after, r) && i.key == j.key && i.fingerprint == j.fingerprint
      ==> i == j
  }

  /**
   * From a store without statements every root is fresh at the subscription, if and only if the
   * sweep has planned every job that the roots have by then.
   */
  lemma ColdStartIff(w: World, before: Documents, after: Documents)
    requires AllAgree(w.jobs(before, FULL_SWEEP)) && JobsFollow(w, before, after)
    ensures AllFreshNow(w, Subscribed(after, RunJobs(map[], w.jobs(before, FULL_SWEEP), w.canLoad).store)) <==>
            forall r, j :: j in w.rootJobs(after, r) && j.writes != [] ==> j in w.jobs(before, FULL_SWEEP)
  {
    var jobs := w.jobs(before, FULL_SWEEP);
    var swept := RunJobs(map[], jobs, w.canLoad).store;
    forall r, j | j in w.rootJobs(after, r) && j.writes != []
      ensures Settled(swept, j) <==> j in jobs
    {
      if Settled(swept, j) { SettledWasPlanned(jobs, w.canLoad, j); }
      if j in jobs {
        var k :| 0 <= k < |jobs| && jobs[k] == j;
        RunSettles(map[], jobs, w.canLoad, k);
      }
    }
  }

  /** The moment of subscription, and the state a worker is in then. */
  lemma SubscribesOnce(w: World, f: nat -> Worker, m: nat, docs: Documents, store: Statements, warmOnStart: bool)
    returns (k: nat)
    requires Faithful(w) && WorkerRun(w, f, m) && f(0) == Started(w, docs, store, warmOnStart) && w.admissible(docs)
    ensures f(k).Live? && w.admissible(f(k).state.docs) && forall n :: 0 <= n < k ==> f(n).Sweeping?
    ensures var swept := if warmOnStart then RunJobs(store, w.jobs(docs, FULL_SWEEP), w.canLoad).store else store;
      f(k).state == Subscribed(f(k).state.docs, swept)
  {
    if warmOnStart {
      var jobs := w.jobs(docs, FULL_SWEEP);
      assert AllMade(w, jobs);
      assert OnSweep(w, jobs, store, f(0));
      k := SweepEnds(w, f, m, jobs, store, 0);
    } else {
      k := 0;
    }
  }

  lemma TailRests(w: World, f: nat -> Worker, m: nat, k: nat, e: nat, n: nat)
    requires WorkerRun(w, f, m) && f(k).Live? && n >= e
    requires Quiescent(Tail(f, k)(n)) && AllFreshNow(w, Tail(f, k)(n))
    requires Equivalent(w, Tail(f, k)(e).docs, Tail(f, k)(n).docs)
    ensures RestsFresh(w, f, k + e)
  {
    StaysLive(w, f, m, k, k + e);
    StaysLive(w, f, m, k, k + n);
    assert Tail(f, k)(n) == StateAt(f, k + n) == f(k + n).state;
    assert Tail(f, k)(e) == StateAt(f, k + e);
    assert IsFreshRest(w, f, k + e, k + n);
  }

  /**
   * A worker that is fresh when it subscribes comes to rest once the edits end, with every
   * target of every root materialized from the documents as they are.
   */
  lemma StaysFresh(w: World, f: nat -> Worker, m: nat, k: nat) returns (l: nat)
    requires Faithful(w) && WorkerRun(w, f, m) && f(k).Live? && w.admissible(f(k).state.docs)
    requires f(k).state == Subscribed(f(k).state.docs, f(k).state.store) && AllFreshNow(w, f(k).state)
    ensures l >= k && l >= m && f(l).Live?
    ensures AllListed(w, StateAt(f, if m > k then m else k)) ==> l == if m > k then m else k
    ensures forall universe :: Settling(w, StateAt(f, l).docs, universe) ==> RestsFresh(w, f, l)
  {
    var g, rest := Tail(f, k), if m > k then m - k else 0;
    TailRuns(w, f, m, k);
    FreshIsAccounted(w, f(k).state);
    assert g(0) == StateAt(f, k + 0) == f(k).state;
    var e := EventuallyFresh(w, g, rest);
    l := k + e;
    StaysLive(w, f, m, k, l);
    assert g(e) == StateAt(f, l) && g(rest) == StateAt(f, k + rest);
    forall universe | Settling(w, StateAt(f, l).docs, universe) ensures RestsFresh(w, f, l) {
      var n: nat :| n >= e && Quiescent(g(n)) && Equivalent(w, g(e).docs, g(n).docs) && AllFreshNow(w, g(n));
      TailRests(w, f, m, k, e, n);
    }
  }

  /** Rest, with every root fresh over documents that are those of moment l to all runs. */
  ghost predicate IsFreshRest(w: World, f: nat -> Worker, l: nat, n: nat)
  {
    && f(n).Live? && Quiescent(f(n).state) && AllFreshNow(w, f(n).state)
    && Equivalent(w, StateAt(f, l).docs, f(n).state.docs)
  }

  ghost predicate RestsFresh(w: World, f: nat -> Worker, l: nat)
  {
    exists n: nat :: n >= l && IsFreshRest(w, f, l, n)
  }

  // ----- the edit that is lost -----

  /** The sweep, an edit at its end, the subscription, and nothing after it. */
  function LostRun(w: World, docs: Documents, store: Statements, edited: Documents, i: nat): Worker
    decreases i
  {
    var jobs := w.jobs(docs, FULL_SWEEP);
    if i == 0 then Started(w, docs, store, true)
    else if i <= |jobs| then
      var before := LostRun(w, docs, store, edited, i - 1);
      if before.Sweeping? && before.todo != [] then Swept(w, before) else before
    else
      var swept := RunJobs(store, jobs, w.canLoad).store;
      if i == |jobs| + 1 then Sweeping(edited, swept, []) else Live(Subscribed(edited, swept))
  }

  lemma {:induction false} LostSweep(w: World, docs: Documents, store: Statements, edited: Documents, i: nat)
    requires Faithful(w) && w.admissible(docs) && AllMade(w, w.jobs(docs, FULL_SWEEP))
    requires i <= |w.jobs(docs, FULL_SWEEP)|
    ensures var jobs := w.jobs(docs, FULL_SWEEP);
      var p := LostRun(w, docs, store, edited, i);
      OnSweep(w, jobs, store, p) && |p.todo| == |jobs| - i
  {
    if i > 0 {
      LostSweep(w, docs, store, edited, i - 1);
      SweptOne(w, w.jobs(docs, FULL_SWEEP), store, LostRun(w, docs, store, edited, i - 1));
    }
  }

  lemma LostRunLeads(w: World, docs: Documents, store: Statements, edited: Documents, i: nat)
    requires Faithful(w) && w.admissible(docs) && w.admissible(edited) && AllMade(w, w.jobs(docs, FULL_SWEEP))
    ensures WorkerLeads(w, LostRun(w, docs, store, edited, i), LostRun(w, docs, store, edited, i + 1),
                        i < |w.jobs(docs, FULL_SWEEP)| + 1)
  {
    var jobs := w.jobs(docs, FULL_SWEEP);
    if i <= |jobs| {
      LostSweep(w, docs, store, edited, i);
      assert jobs[..|jobs|] == jobs;
    }
  }

  lemma LostForEver(
      w: World, docs: Documents, store: Statements, edited: Documents, root: string, j: Job, n: nat)
    requires n > |w.jobs(docs, FULL_SWEEP)| + 1 && j in w.rootJobs(edited, root) && j.writes != []
    requires !Settled(RunJobs(store, w.jobs(docs, FULL_SWEEP), w.canLoad).store, j)
    ensures var p := LostRun(w, docs, store, edited, n); p.Live? && Quiescent(p.state) && !AllFreshNow(w, p.state)
  {
  }

  /**
   * An edit between the sweep and the subscription is lost: if it changes a job of a root to
   * one the sweep has not settled, some schedule leaves the worker at rest with that root stale
   * for ever.
   */
  lemma EditIsLost(w: World, docs: Documents, store: Statements, edited: Documents, root: string, j: Job)
    returns (f: nat -> Worker, k: nat)
    requires Faithful(w) && w.admissible(docs) && w.admissible(edited)
    requires j in w.rootJobs(edited, root) && j.writes != []
    requires !Settled(RunJobs(store, w.jobs(docs, FULL_SWEEP), w.canLoad).store, j)
    ensures f(0) == Started(w, docs, store, true) && WorkerRun(w, f, k)
    ensures forall n :: n > k ==> f(n).Live? && Quiescent(f(n).state) && !AllFreshNow(w, f(n).state)
  {
    assert AllMade(w, w.jobs(docs, FULL_SWEEP));
    f := (i: nat) => LostRun(w, docs, store, edited, i);
    k := |w.jobs(docs, FULL_SWEEP)| + 1;
    forall i: nat ensures WorkerLeads(w, f(i), f(i + 1), i < k) { LostRunLeads(w, docs, store, edited, i); }
    forall n: nat | n > k ensures f(n).Live? && Quiescent(f(n).state) && !AllFreshNow(w, f(n).state) {
      LostForEver(w, docs, store, edited, root, j, n);
    }
  }
}
