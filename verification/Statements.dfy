/**
 * Materialized values and their provenance: what a store keeps, and the pass that skips
 * fresh entities and rewrites the others (packages/calc-engine/src/warm.ts:349-387).
 */
module Statements {
  import opened Json

  /** One annotated value; the fingerprint is that of the inputs it was computed from. */
  datatype Statement = Statement(value: Scalar, fingerprint: string)

  datatype Key = Key(typeName: string, iri: string)

  /** Statement history per path; the last node is the current one. */
  type PathStatements = map<string, seq<Statement>>

  type Statements = map<Key, PathStatements>

  datatype Write = Write(path: string, statement: Statement)

  /** What a warm pass would store for one target. */
  datatype Job = Job(key: Key, fingerprint: string, writes: seq<Write>)

  /** `isMaterializationFresh`: only the current statement counts. */
  predicate Fresh(nodes: seq<Statement>, fingerprint: string)
  {
    nodes != [] && nodes[|nodes| - 1].fingerprint == fingerprint
  }

  function PathsOf(writes: seq<Write>): set<string>
  {
    set w | w in writes :: w.path
  }

  /** `loadStatements`: the recorded paths among those asked for. */
  function Load(store: Statements, key: Key, paths: set<string>): PathStatements
  {
    if key in store then map p | p in store[key] && p in paths :: store[key][p] else map[]
  }

  function Record(nodes: PathStatements, writes: seq<Write>): PathStatements
  {
    if writes == [] then nodes
    else
      var w := writes[|writes| - 1];
      var before := Record(nodes, writes[..|writes| - 1]);
      before[w.path := (if w.path in before then before[w.path] else []) + [w.statement]]
  }

  /** `writeStatements` */
  function Stored(store: Statements, key: Key, writes: seq<Write>): Statements
  {
    store[key := Record(if key in store then store[key] else map[], writes)]
  }

  /** The test that lets a pass skip a target. */
  predicate AllFresh(existing: PathStatements, fingerprint: string)
  {
    existing != map[] && forall p :: p in existing ==> Fresh(existing[p], fingerprint)
  }

  predicate Settled(store: Statements, job: Job)
  {
    AllFresh(Load(store, job.key, PathsOf(job.writes)), job.fingerprint)
  }

  /** Counters of a pass, the statements it leaves, and the keys it wrote, in order. */
  datatype Tally = Tally(
    store: Statements, warmed: nat, skippedFresh: nat, writesIssued: nat, echoes: seq<Key>)

  predicate Skips(store: Statements, job: Job, skipFresh: bool)
  {
    skipFresh && Settled(store, job)
  }

  /** The loop body of `warm`; `skipFresh` already includes that the store can load statements. */
  function RunJob(t: Tally, job: Job, skipFresh: bool): Tally
  {
    if job.writes == [] then t
    else if Skips(t.store, job, skipFresh) then t.(skippedFresh := t.skippedFresh + 1)
    else Tally(Stored(t.store, job.key, job.writes), t.warmed + 1, t.skippedFresh,
               t.writesIssued + |job.writes|, t.echoes + [job.key])
  }

  function RunJobs(store: Statements, jobs: seq<Job>, skipFresh: bool): Tally
  {
    if jobs == [] then Tally(store, 0, 0, 0, [])
    else RunJob(RunJobs(store, jobs[..|jobs| - 1], skipFresh), jobs[|jobs| - 1], skipFresh)
  }

  // ----- one write -----

  predicate OneFingerprint(job: Job)
  {
    forall w :: w in job.writes ==> w.statement.fingerprint == job.fingerprint
  }

  /** The current node of a path is one of the statements just written for it. */
  ghost predicate IsCurrent(nodes: seq<Statement>, writes: seq<Write>, path: string)
  {
    nodes != [] && exists w :: w in writes && w.path == path && w.statement == nodes[|nodes| - 1]
  }

  lemma {:induction false} RecordPath(nodes: PathStatements, writes: seq<Write>, path: string)
    ensures path in Record(nodes, writes) <==> path in nodes || path in PathsOf(writes)
    ensures path !in PathsOf(writes) && path in nodes ==> Record(nodes, writes)[path] == nodes[path]
    ensures path in PathsOf(writes) ==> IsCurrent(Record(nodes, writes)[path], writes, path)
  {
    if writes != [] {
      var n := |writes| - 1;
      RecordPath(nodes, writes[..n], path);
      assert writes == writes[..n] + [writes[n]];
      assert PathsOf(writes) == PathsOf(writes[..n]) + {writes[n].path};
    }
  }

  /** Written targets are fresh. */
  lemma StoredSettles(store: Statements, job: Job)
    requires job.writes != [] && OneFingerprint(job)
    ensures Settled(Stored(store, job.key, job.writes), job)
  {
    var nodes := if job.key in store then store[job.key] else map[];
    var after := Load(Stored(store, job.key, job.writes), job.key, PathsOf(job.writes));
    forall p | p in after ensures Fresh(after[p], job.fingerprint) {
      RecordPath(nodes, job.writes, p);
    }
    var p := job.writes[0].path;
    assert p in PathsOf(job.writes);
    RecordPath(nodes, job.writes, p);
    assert p in after;
  }

  /** Two jobs for one entity that share a path carry one fingerprint. */
  predicate Agree(a: Job, b: Job)
  {
    a.key == b.key && PathsOf(a.writes) * PathsOf(b.writes) != {} ==> a.fingerprint == b.fingerprint
  }

  ghost predicate AllAgree(jobs: seq<Job>)
  {
    && (forall a, b :: a in jobs && b in jobs ==> Agree(a, b))
    && (forall a :: a in jobs ==> OneFingerprint(a))
  }

  /** Writing one target does not unsettle an agreeing one. */
  lemma StoredKeepsSettled(store: Statements, job: Job, other: Job)
    requires Settled(store, other) && Agree(job, other) && OneFingerprint(job)
    ensures Settled(Stored(store, job.key, job.writes), other)
  {
    if job.key == other.key {
      var nodes := store[job.key];
      var before := Load(store, other.key, PathsOf(other.writes));
      var after := Load(Stored(store, job.key, job.writes), other.key, PathsOf(other.writes));
      forall p | p in after ensures Fresh(after[p], other.fingerprint) {
        RecordPath(nodes, job.writes, p);
        if p in PathsOf(job.writes) {
          assert p in PathsOf(job.writes) * PathsOf(other.writes);
        } else {
          assert p in before;
        }
      }
      var p :| p in before;
      RecordPath(nodes, job.writes, p);
      assert p in after;
    } else {
      assert Load(Stored(store, job.key, job.writes), other.key, PathsOf(other.writes))
          == Load(store, other.key, PathsOf(other.writes));
    }
  }

  /** Earlier statements stay: a write only adds to the history of its paths. */
  lemma {:induction false} HistoryStays(nodes: PathStatements, writes: seq<Write>, path: string)
    requires path in nodes
    ensures path in Record(nodes, writes) && nodes[path] <= Record(nodes, writes)[path]
    ensures |Record(nodes, writes)[path]| == |nodes[path]| + WritesTo(writes, path)
  {
    if writes != [] { HistoryStays(nodes, writes[..|writes| - 1], path); }
  }

  function WritesTo(writes: seq<Write>, path: string): nat
  {
    if writes == [] then 0
    else WritesTo(writes[..|writes| - 1], path) + if writes[|writes| - 1].path == path then 1 else 0
  }

  /**
   * A target is left alone if and only if some path of its plan has a statement, and the current
   * statement of every path of its plan that has any was computed from its present inputs.
   */
  lemma SettledIff(store: Statements, job: Job)
    ensures Settled(store, job) <==>
            && (exists p :: p in PathsOf(job.writes) && job.key in store && p in store[job.key])
            && forall p :: p in PathsOf(job.writes) && job.key in store && p in store[job.key] ==>
                 var nodes := store[job.key][p];
                 nodes != [] && nodes[|nodes| - 1].fingerprint == job.fingerprint
  {
    var existing := Load(store, job.key, PathsOf(job.writes));
    assert forall p :: p in existing <==> p in PathsOf(job.writes) && job.key in store && p in store[job.key];
    if existing != map[] { var p :| p in existing; }
  }

  // ----- a whole pass -----

  function Planned(jobs: seq<Job>): nat
  {
    if jobs == [] then 0
    else Planned(jobs[..|jobs| - 1]) + if jobs[|jobs| - 1].writes != [] then 1 else 0
  }

  /** Total size of the write batches of the jobs that were not skipped. */
  function BatchSizes(store: Statements, jobs: seq<Job>, skipFresh: bool): nat
  {
    if jobs == [] then 0
    else
      var n := |jobs| - 1;
      BatchSizes(store, jobs[..n], skipFresh)
      + if Skips(RunJobs(store, jobs[..n], skipFresh).store, jobs[n], skipFresh) then 0 else |jobs[n].writes|
  }

  /** In every run each planned target is either warmed or skipped, and writes are counted in full. */
  lemma {:induction false} RunCounts(store: Statements, jobs: seq<Job>, skipFresh: bool)
    ensures var t := RunJobs(store, jobs, skipFresh);
      && t.warmed + t.skippedFresh == Planned(jobs)
      && t.writesIssued == BatchSizes(store, jobs, skipFresh)
      && |t.echoes| == t.warmed
      && (t.warmed == 0 ==> t.writesIssued == 0 && t.store == store)
  {
    if jobs != [] {
      RunCounts(store, jobs[..|jobs| - 1], skipFresh);
    }
  }

  lemma {:induction false} RunSettles(store: Statements, jobs: seq<Job>, skipFresh: bool, k: nat)
    requires AllAgree(jobs) && k < |jobs| && jobs[k].writes != []
    ensures Settled(RunJobs(store, jobs, skipFresh).store, jobs[k])
  {
    var n := |jobs| - 1;
    var before := RunJobs(store, jobs[..n], skipFresh);
    assert jobs[k] in jobs && jobs[n] in jobs;
    if k < n {
      forall a | a in jobs[..n] ensures a in jobs { }
      RunSettles(store, jobs[..n], skipFresh, k);
      StoredKeepsSettled(before.store, jobs[n], jobs[k]);
    } else {
      StoredSettles(before.store, jobs[n]);
    }
  }

  lemma {:induction false} SettledRunIsSilent(store: Statements, jobs: seq<Job>)
    requires forall k :: 0 <= k < |jobs| && jobs[k].writes != [] ==> Settled(store, jobs[k])
    ensures RunJobs(store, jobs, true) == Tally(store, 0, Planned(jobs), 0, [])
  {
    if jobs != [] {
      var n := |jobs| - 1;
      forall k | 0 <= k < n && jobs[..n][k].writes != [] ensures Settled(store, jobs[..n][k]) {
        assert jobs[..n][k] == jobs[k];
      }
      SettledRunIsSilent(store, jobs[..n]);
    }
  }

  /** Idempotence: over unchanged inputs a second pass writes nothing, whatever the first one did. */
  lemma WarmIdempotent(store: Statements, jobs: seq<Job>, skipFresh: bool)
    requires AllAgree(jobs)
    ensures var first := RunJobs(store, jobs, skipFresh).store;
      RunJobs(first, jobs, true) == Tally(first, 0, Planned(jobs), 0, [])
  {
    var first := RunJobs(store, jobs, skipFresh).store;
    forall k | 0 <= k < |jobs| && jobs[k].writes != [] ensures Settled(first, jobs[k]) {
      RunSettles(store, jobs, skipFresh, k);
    }
    SettledRunIsSilent(first, jobs);
  }

  /** After a pass over the jobs, a second one writes nothing. */
  ghost predicate SecondPassSilent(store: Statements, jobs: seq<Job>)
  {
    RunJobs(RunJobs(store, jobs, true).store, jobs, true).warmed == 0
  }

  /** The jobs that have something to write. */
  function PlannedJobs(jobs: seq<Job>): seq<Job>
  {
    if jobs == [] then []
    else PlannedJobs(jobs[..|jobs| - 1]) + if jobs[|jobs| - 1].writes != [] then [jobs[|jobs| - 1]] else []
  }

  lemma {:induction false} PlannedMember(jobs: seq<Job>, j: Job)
    ensures j in PlannedJobs(jobs) <==> j in jobs && j.writes != []
  {
    if jobs != [] {
      var n := |jobs| - 1;
      PlannedMember(jobs[..n], j);
      assert jobs == jobs[..n] + [jobs[n]];
    }
  }

  /** Jobs without writes share no path with any job. */
  lemma PlannedAgree(jobs: seq<Job>)
    requires AllAgree(PlannedJobs(jobs)) && forall j :: j in jobs ==> OneFingerprint(j)
    ensures AllAgree(jobs)
  {
    forall a, b | a in jobs && b in jobs ensures Agree(a, b) {
      PlannedMember(jobs, a);
      PlannedMember(jobs, b);
      if p :| p in PathsOf(a.writes) * PathsOf(b.writes) { assert a.writes != [] && b.writes != []; }
    }
  }

  /** A silent pass changes nothing, so every planned job was settled. */
  lemma {:induction false} SilentIsSettled(store: Statements, jobs: seq<Job>, j: Job)
    requires RunJobs(store, jobs, true).warmed == 0
    ensures RunJobs(store, jobs, true).store == store
    ensures j in jobs && j.writes != [] ==> Settled(store, j)
  {
    if jobs != [] {
      var n := |jobs| - 1;
      SilentIsSettled(store, jobs[..n], j);
      assert jobs == jobs[..n] + [jobs[n]];
    }
  }

  predicate Recorded(store: Statements, key: Key, path: string)
  {
    key in store && path in store[key] && store[key][path] != []
  }

  lemma {:induction false} RecordedStays(store: Statements, jobs: seq<Job>, skipFresh: bool, key: Key, path: string)
    requires Recorded(store, key, path)
    ensures Recorded(RunJobs(store, jobs, skipFresh).store, key, path)
  {
    if jobs != [] {
      var n := |jobs| - 1;
      RecordedStays(store, jobs[..n], skipFresh, key, path);
      RecordPath(RunJobs(store, jobs[..n], skipFresh).store[key], jobs[n].writes, path);
    }
  }

  /** Disagreeing copies overwrite each other: once a path they share is recorded, every pass writes. */
  lemma CopiesFight(store: Statements, jobs: seq<Job>, a: Job, b: Job, path: string)
    requires a in jobs && b in jobs && a.key == b.key && a.fingerprint != b.fingerprint
    requires path in PathsOf(a.writes) && path in PathsOf(b.writes) && Recorded(store, a.key, path)
    ensures RunJobs(store, jobs, true).warmed > 0 && !SecondPassSilent(store, jobs)
  {
    var first := RunJobs(store, jobs, true).store;
    RecordedStays(store, jobs, true, a.key, path);
    if RunJobs(store, jobs, true).warmed == 0 { NotBothSettled(store, jobs, a, b, path); }
    if SecondPassSilent(store, jobs) { NotBothSettled(first, jobs, a, b, path); }
  }

  lemma SettledPath(store: Statements, job: Job, path: string)
    requires Settled(store, job) && path in PathsOf(job.writes) && Recorded(store, job.key, path)
    ensures Fresh(store[job.key][path], job.fingerprint)
  {
    assert path in Load(store, job.key, PathsOf(job.writes));
  }

  lemma NotBothSettled(store: Statements, jobs: seq<Job>, a: Job, b: Job, path: string)
    requires a in jobs && b in jobs && a.key == b.key && a.fingerprint != b.fingerprint
    requires path in PathsOf(a.writes) && path in PathsOf(b.writes) && Recorded(store, a.key, path)
    ensures RunJobs(store, jobs, true).warmed > 0
  {
    if RunJobs(store, jobs, true).warmed == 0 {
      SilentIsSettled(store, jobs, a);
      SilentIsSettled(store, jobs, b);
      SettledPath(store, a, path);
      SettledPath(store, b, path);
    }
  }

  /**
   * The hypothesis is exact: second passes over some jobs are silent from every store, if and
   * only if those of them that write agree.
   */
  lemma SettleIff(jobs: seq<Job>)
    requires forall j :: j in jobs ==> OneFingerprint(j)
    ensures (forall store :: SecondPassSilent(store, jobs)) <==> AllAgree(PlannedJobs(jobs))
  {
    if AllAgree(PlannedJobs(jobs)) {
      PlannedAgree(jobs);
      forall store ensures SecondPassSilent(store, jobs) { WarmIdempotent(store, jobs, true); }
    } else {
      forall j | j in PlannedJobs(jobs) ensures OneFingerprint(j) && j in jobs { PlannedMember(jobs, j); }
      var a, b :| a in PlannedJobs(jobs) && b in PlannedJobs(jobs) && !Agree(a, b);
      var path :| path in PathsOf(a.writes) * PathsOf(b.writes);
      var store: Statements := map[a.key := map[path := [Statement(Num(0), "")]]];
      CopiesFight(store, jobs, a, b, path);
      assert !SecondPassSilent(store, jobs);
    }
  }

  /** Without `loadStatements` nothing is ever skipped, so every pass writes every planned target. */
  lemma {:induction false} WithoutLoadEverythingIsWritten(store: Statements, jobs: seq<Job>)
    ensures RunJobs(store, jobs, false).warmed == Planned(jobs)
    ensures RunJobs(store, jobs, false).skippedFresh == 0
  {
    if jobs != [] {
      WithoutLoadEverythingIsWritten(store, jobs[..|jobs| - 1]);
    }
  }
}
