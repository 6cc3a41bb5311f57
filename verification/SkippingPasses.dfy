/**
 * Passes that may skip: the exact condition under which the next read is fresh
 * (packages/calc-engine/src/warm.ts:364-385).
 */
module SkippingPasses {
  import opened Strings
  import opened Json
  import opened Canonical
  import opened Profiles
  import opened Fingerprints
  import opened Shapes
  import opened Targets
  import opened Views
  import opened Evaluator
  import opened Statements
  import opened Warm
  import opened ReadCalcValues
  import opened Inputs
  import opened Coherence
  import opened WarmThenRead

  function EntryFor(store: Statements, key: Key): Option<PathStatements>
  {
    if key in store then Some(store[key]) else None
  }

  function Opened(entry: Option<PathStatements>): PathStatements
  {
    if entry.Some? then entry.value else map[]
  }

  ghost predicate DistinctKeys(jobs: seq<Job>)
  {
    forall i, j :: 0 <= i < j < |jobs| ==> jobs[i].key != jobs[j].key
  }

  lemma {:induction false} KeyUntouched(store: Statements, jobs: seq<Job>, skipFresh: bool, key: Key)
    requires forall i :: 0 <= i < |jobs| ==> jobs[i].key != key
    ensures EntryFor(RunJobs(store, jobs, skipFresh).store, key) == EntryFor(store, key)
  {
    if jobs != [] {
      KeyUntouched(store, jobs[..|jobs| - 1], skipFresh, key);
    }
  }

  /** What a single job makes of the entry of its own key. */
  function OwnEntry(store: Statements, job: Job, skipFresh: bool): Option<PathStatements>
  {
    if job.writes == [] || Skips(store, job, skipFresh) then EntryFor(store, job.key)
    else Some(Record(Opened(EntryFor(store, job.key)), job.writes))
  }

  lemma {:induction false} JobsAreIndependent(store: Statements, jobs: seq<Job>, skipFresh: bool, k: nat)
    requires DistinctKeys(jobs) && k < |jobs|
    ensures EntryFor(RunJobs(store, jobs, skipFresh).store, jobs[k].key) == OwnEntry(store, jobs[k], skipFresh)
  {
    var n := |jobs| - 1;
    if k < n {
      JobsAreIndependent(store, jobs[..n], skipFresh, k);
    } else {
      KeyUntouched(store, jobs[..n], skipFresh, jobs[n].key);
      SameEntrySettles(store, RunJobs(store, jobs[..n], skipFresh).store, jobs[n]);
    }
  }

  lemma SameEntrySettles(a: Statements, b: Statements, job: Job)
    requires EntryFor(a, job.key) == EntryFor(b, job.key)
    ensures Settled(a, job) == Settled(b, job)
  {
    assert Load(a, job.key, PathsOf(job.writes)) == Load(b, job.key, PathsOf(job.writes));
  }

  /** Every slot of the target has a statement. */
  ghost predicate FullyRecorded(store: Statements, profile: Profile, o: Occurrence)
  {
    forall s :: s in profile && Owns(s, o.typeName) ==> Recorded(store, Key(o.typeName, o.iri), s.path)
  }

  /** The path is fresh after a pass, unless the target was skipped with no statement for it. */
  ghost predicate PathAfter(store: Statements, after: Statements, job: Job, path: string, skipFresh: bool)
  {
    Recorded(after, job.key, path) && Fresh(after[job.key][path], job.fingerprint) <==>
    (Skips(store, job, skipFresh) ==> Recorded(store, job.key, path))
  }

  lemma {:induction false} OneJobPath(store: Statements, after: Statements, job: Job, path: string, skipFresh: bool)
    requires path in PathsOf(job.writes) && OneFingerprint(job)
    requires EntryFor(after, job.key) == OwnEntry(store, job, skipFresh)
    ensures PathAfter(store, after, job, path, skipFresh)
  {
    if Skips(store, job, skipFresh) {
      if Recorded(store, job.key, path) {
        assert path in Load(store, job.key, PathsOf(job.writes));
      }
    } else {
      RecordPath(Opened(EntryFor(store, job.key)), job.writes, path);
    }
  }

  /** Targets of several documents that name one entity plan one job. */
  ghost predicate OneJobPerKey(jobs: seq<Job>)
  {
    forall a, b :: a in jobs && b in jobs && a.key == b.key ==> a == b
  }

  /** The rule for a single target holds for every path of a whole pass, however often its entity comes up. */
  lemma {:induction false} PathAfterPass(store: Statements, jobs: seq<Job>, skipFresh: bool, job: Job, path: string)
    requires OneJobPerKey(jobs) && AllAgree(jobs) && job in jobs && path in PathsOf(job.writes)
    ensures PathAfter(store, RunJobs(store, jobs, skipFresh).store, job, path, skipFresh)
  {
    var n := |jobs| - 1;
    var init, last := jobs[..n], jobs[n];
    assert jobs == init + [last];
    var before := RunJobs(store, init, skipFresh);
    assert RunJobs(store, jobs, skipFresh) == RunJob(before, last, skipFresh);
    if job in init {
      PathAfterPass(store, init, skipFresh, job, path);
      if last.key == job.key {
        var k :| 0 <= k < n && init[k] == job;
        RunSettles(store, init, skipFresh, k);
        RepeatedPath(store, before, job, path, skipFresh);
      }
    } else {
      forall i | 0 <= i < n ensures init[i].key != last.key { assert init[i] in jobs && last in jobs; }
      KeyUntouched(store, init, skipFresh, last.key);
      SameEntrySettles(store, before.store, last);
      OneJobPath(store, RunJob(before, last, skipFresh).store, last, path, skipFresh);
    }
  }

  /** Doing a settled job again changes nothing that counts. */
  lemma RepeatedPath(store: Statements, before: Tally, job: Job, path: string, skipFresh: bool)
    requires PathAfter(store, before.store, job, path, skipFresh) && Settled(before.store, job)
    requires path in PathsOf(job.writes) && OneFingerprint(job)
    ensures PathAfter(store, RunJob(before, job, skipFresh).store, job, path, skipFresh)
  {
    if !skipFresh {
      RecordPath(Opened(EntryFor(before.store, job.key)), job.writes, path);
    }
  }

  lemma JobOfShape(profile: Profile, o: Occurrence, p: Occurrence)
    requires o.typeName == p.typeName && o.iri == p.iri && o.entity.Obj? && p.entity.Obj?
    requires WellFormed(o.entity) && WellFormed(p.entity) && ShapeOf(o.entity) == ShapeOf(p.entity)
    requires CleanProfile(profile) && forall s :: s in profile ==> !IsSidecar(s.propertyName)
    ensures JobOf(profile, o) == JobOf(profile, p)
  {
    FingerprintStable(profile, o.typeName, o.entity, p.entity);
    forall s | s in PlanSlots(profile, o.typeName) ensures !IsSidecar(s.propertyName) {
      PlanSlotsMember(profile, o.typeName, s);
    }
    WritesShape(PlanSlots(profile, o.typeName), o.entity, p.entity, JobOf(profile, o).fingerprint);
  }

  lemma {:induction false} WritesShape(slots: seq<Slot>, v: Json, w: Json, fingerprint: string)
    requires v.Obj? && w.Obj? && WellFormed(v) && WellFormed(w) && ShapeOf(v) == ShapeOf(w)
    requires forall s :: s in slots ==> !IsSidecar(s.propertyName)
    ensures Writes(slots, v, fingerprint) == Writes(slots, w, fingerprint)
  {
    if slots != [] {
      var n := |slots| - 1;
      WritesShape(slots[..n], v, w, fingerprint);
      assert slots[n] in slots;
      FieldShape(v, w, slots[n].propertyName);
      var a, b := Lookup(v.fields, slots[n].propertyName), Lookup(w.fields, slots[n].propertyName);
      if IsScalar(b) { ScalarShape(a, b); }
      if IsScalar(a) { ScalarShape(b, a); }
    }
  }

  /** One root, or several whose copies of one entity agree. */
  ghost predicate Coherent(profile: Profile, docs: seq<Json>)
  {
    |docs| == 1 || CopiesAgree(profile, docs)
  }

  lemma {:induction false} CopiesOfOneShape(profile: Profile, docs: seq<Json>, d: nat, e: nat, o: Occurrence, p: Occurrence)
    requires Coherent(profile, docs) && Copies(profile, docs, d, e, o, p)
    ensures o == p || (WellFormed(o.entity) && WellFormed(p.entity) && ShapeOf(o.entity) == ShapeOf(p.entity))
  {
    if CopiesAgree(profile, docs) {
      assert Copies(profile, docs, d, e, o, p);
    } else {
      assert d == 0 && e == 0;
      OneTargetPerIri(profile, docs[0], o, p);
    }
  }

  lemma {:induction false} SameKeySameJob(profile: Profile, docs: seq<Json>, a: Job, b: Job)
    requires Coherent(profile, docs) && CleanProfile(profile) && forall s :: s in profile ==> !IsSidecar(s.propertyName)
    requires a in JobsOfDocs(profile, docs) && b in JobsOfDocs(profile, docs) && a.key == b.key
    ensures a == b
  {
    var d, o := JobOrigin(profile, docs, a);
    var e, p := JobOrigin(profile, docs, b);
    assert Key(o.typeName, o.iri) == a.key && Key(p.typeName, p.iri) == b.key;
    assert o == p || (WellFormed(o.entity) && WellFormed(p.entity) && ShapeOf(o.entity) == ShapeOf(p.entity)) by {
      assert Copies(profile, docs, d, e, o, p);
      CopiesOfOneShape(profile, docs, d, e, o, p);
    }
    if o != p { JobOfShape(profile, o, p); }
  }

  lemma {:induction false} CoherentPlans(profile: Profile, docs: seq<Json>)
    requires Coherent(profile, docs) && CleanProfile(profile) && forall s :: s in profile ==> !IsSidecar(s.propertyName)
    ensures OneJobPerKey(JobsOfDocs(profile, docs)) && AllAgree(JobsOfDocs(profile, docs))
  {
    var jobs := JobsOfDocs(profile, docs);
    forall a, b | a in jobs && b in jobs && a.key == b.key ensures a == b {
      SameKeySameJob(profile, docs, a, b);
    }
    JobsHaveOneFingerprint(profile, docs);
  }

  lemma {:induction false} SlotAfterPass(
      store: Statements, after: Statements, profile: Profile, e: Json, o: Occurrence, slot: Slot, skipFresh: bool)
    requires AllScalar(profile, e) && o in CalcTargets(e, profile) && o.entity.Obj?
    requires slot in profile && Owns(slot, o.typeName) && PathsAreNames(profile)
    requires forall path :: path in PathsOf(JobOf(profile, o).writes) ==>
               PathAfter(store, after, JobOf(profile, o), path, skipFresh)
    ensures Fresh(Nodes(after, o, slot), Fingerprint(profile, o.typeName, o.entity)) <==>
            (Skips(store, JobOf(profile, o), skipFresh) ==> Recorded(store, Key(o.typeName, o.iri), slot.path))
  {
    SlotIsPlanned(profile, e, o, slot);
    assert PathAfter(store, after, JobOf(profile, o), slot.path, skipFresh);
    var key := JobOf(profile, o).key;
    assert Nodes(after, o, slot) == if key in after && slot.path in after[key] then after[key][slot.path] else [];
  }

  lemma {:induction false} TargetAfterPass(
      store: Statements, after: Statements, profile: Profile, e: Json, o: Occurrence, p: Occurrence, skipFresh: bool)
    requires AllScalar(profile, e) && o in CalcTargets(e, profile) && o.entity.Obj? && SameTarget(profile, o, p)
    requires PathsAreNames(profile)
    requires forall path :: path in PathsOf(JobOf(profile, o).writes) ==>
               PathAfter(store, after, JobOf(profile, o), path, skipFresh)
    ensures TargetFresh(after, profile, p) <==>
            (Skips(store, JobOf(profile, o), skipFresh) ==> FullyRecorded(store, profile, o))
    ensures TargetFresh(after, profile, p) && SlotsOf(profile, p.typeName) != [] ==> TargetHasStatement(after, profile, p)
  {
    var slots, fingerprint := SlotsOf(profile, p.typeName), Fingerprint(profile, p.typeName, p.entity);
    forall s | s in profile && Owns(s, o.typeName)
      ensures Fresh(Nodes(after, p, s), fingerprint) <==>
              (Skips(store, JobOf(profile, o), skipFresh) ==> Recorded(store, Key(o.typeName, o.iri), s.path))
    {
      SlotAfterPass(store, after, profile, e, o, s, skipFresh);
      assert Nodes(after, p, s) == Nodes(after, o, s);
    }
    if Skips(store, JobOf(profile, o), skipFresh) ==> FullyRecorded(store, profile, o) {
      forall s | s in slots ensures Fresh(Nodes(after, p, s), fingerprint) { SlotsOfMember(profile, p.typeName, s); }
      SlotsFreshFrom(after, p, slots, fingerprint);
    }
    if TargetFresh(after, profile, p) {
      forall s | s in profile && Owns(s, o.typeName) ensures Fresh(Nodes(after, p, s), fingerprint) {
        SlotsOfMember(profile, p.typeName, s);
        SlotFreshAt(after, p, slots, fingerprint, s);
      }
      forall s | s in slots ensures Fresh(Nodes(after, p, s), fingerprint) { SlotsOfMember(profile, p.typeName, s); }
      SlotsFreshFrom(after, p, slots, fingerprint);
    }
  }

  /** The pass writes the target, or skips it with a statement for every slot. */
  ghost predicate WrittenOrComplete(store: Statements, profile: Profile, e: Json, skipFresh: bool, k: nat)
    requires k < |CalcTargets(e, profile)|
  {
    Skips(store, JobsOf(profile, e)[k], skipFresh) ==> FullyRecorded(store, profile, CalcTargets(e, profile)[k])
  }

  lemma {:induction false} TargetAt(
      profile: Profile, docs: seq<Json>, d: nat, store: Statements, skipFresh: bool, k: nat, p: Occurrence)
    requires CoherentData(profile, docs) && d < |docs| && AllScalar(profile, docs[d]) && PathsAreNames(profile)
    requires k < |CalcTargets(docs[d], profile)| && SameTarget(profile, CalcTargets(docs[d], profile)[k], p)
    ensures var after := RunJobs(store, JobsOfDocs(profile, docs), skipFresh).store;
      && (TargetFresh(after, profile, p) <==> WrittenOrComplete(store, profile, docs[d], skipFresh, k))
      && (TargetFresh(after, profile, p) && SlotsOf(profile, p.typeName) != [] ==> TargetHasStatement(after, profile, p))
  {
    var jobs, o := JobsOfDocs(profile, docs), CalcTargets(docs[d], profile)[k];
    var after := RunJobs(store, jobs, skipFresh).store;
    assert o in CalcTargets(docs[d], profile);
    JobIsThere(profile, docs, d, o);
    CoherentPlans(profile, docs);
    forall path | path in PathsOf(JobOf(profile, o).writes)
      ensures PathAfter(store, after, JobOf(profile, o), path, skipFresh)
    {
      PathAfterPass(store, jobs, skipFresh, JobOf(profile, o), path);
    }
    TargetsAreRecords(profile, docs[d]);
    TargetAfterPass(store, after, profile, docs[d], o, p, skipFresh);
  }

  ghost predicate CoherentData(profile: Profile, docs: seq<Json>)
  {
    Coherent(profile, docs) && CleanProfile(profile) && forall s :: s in profile ==> !IsSidecar(s.propertyName)
  }

  lemma JobKeysDiffer(profile: Profile, e: Json)
    ensures DistinctKeys(JobsOf(profile, e))
  {
    TargetsSelected(e, profile);
    TargetsAreRecords(profile, e);
  }

  lemma FreshVerdictIff(store: Statements, profile: Profile, targets: seq<Occurrence>)
    requires forall k :: 0 <= k < |targets| ==>
      (TargetFresh(store, profile, targets[k]) && SlotsOf(profile, targets[k].typeName) != []
       ==> TargetHasStatement(store, profile, targets[k]))
    requires exists o :: o in targets && SlotsOf(profile, o.typeName) != []
    ensures Verdict(store, profile, targets) == FreshState <==>
            forall k :: 0 <= k < |targets| ==> TargetFresh(store, profile, targets[k])
  {
    if Verdict(store, profile, targets) == FreshState {
      forall k | 0 <= k < |targets| ensures TargetFresh(store, profile, targets[k]) {
        TargetFreshAt(store, profile, targets, targets[k]);
      }
    }
    if forall k :: 0 <= k < |targets| ==> TargetFresh(store, profile, targets[k]) {
      FreshVerdict(store, profile, targets);
    }
  }

  lemma {:induction false} FreshWhenReadBackIff(
      profile: Profile, docs: seq<Json>, d: nat, store: Statements, skipFresh: bool, doc: Json)
    requires CoherentData(profile, docs) && d < |docs| && AllScalar(profile, docs[d]) && PathsAreNames(profile)
    requires ReadsBack(profile, docs[d], doc) && exists o :: o in CalcTargets(doc, profile) && SlotsOf(profile, o.typeName) != []
    ensures Verdict(RunJobs(store, JobsOfDocs(profile, docs), skipFresh).store, profile, CalcTargets(doc, profile)) == FreshState
      <==> forall k :: 0 <= k < |CalcTargets(docs[d], profile)| ==> WrittenOrComplete(store, profile, docs[d], skipFresh, k)
  {
    var b := CalcTargets(doc, profile);
    var after := RunJobs(store, JobsOfDocs(profile, docs), skipFresh).store;
    forall k | 0 <= k < |b|
      ensures TargetFresh(after, profile, b[k]) <==> WrittenOrComplete(store, profile, docs[d], skipFresh, k)
      ensures TargetFresh(after, profile, b[k]) && SlotsOf(profile, b[k].typeName) != []
              ==> TargetHasStatement(after, profile, b[k])
    {
      assert SameTarget(profile, CalcTargets(docs[d], profile)[k], b[k]);
      TargetAt(profile, docs, d, store, skipFresh, k, b[k]);
    }
    FreshVerdictIff(after, profile, b);
  }

  /**
   * The exact effect of skipping. After a pass over any number of agreeing roots, the read of
   * one of them is fresh if and only if none of its targets was skipped while one of its slots
   * had no statement: the pass looks at recorded statements only, the read asks for all of them.
   */
  lemma {:induction false} FreshAfterPassIff(
      profile: Profile, f: Formula, raw: seq<Json>, d: nat, store: Statements, skipFresh: bool, doc: Json, unread: seq<Slot>)
    requires Coherent(profile, EvaluatedAll(profile, f, raw)) && CleanProfile(profile) && PathsAreNames(profile)
    requires d < |raw| && Returned(profile, f, raw[d], doc, unread) && AllScalar(profile, Evaluate(profile, f, raw[d]))
    requires exists o :: o in CalcTargets(doc, profile) && SlotsOf(profile, o.typeName) != []
    ensures var e, jobs := Evaluate(profile, f, raw[d]), JobsOfDocs(profile, EvaluatedAll(profile, f, raw));
      Verdict(RunJobs(store, jobs, skipFresh).store, profile, CalcTargets(doc, profile)) == FreshState
      <==> forall k :: 0 <= k < |CalcTargets(e, profile)| ==> WrittenOrComplete(store, profile, e, skipFresh, k)
  {
    ReturnedReadsBack(profile, f, raw[d], doc, unread);
    forall s | s in profile ensures !IsSidecar(s.propertyName) { OutputIsData(profile, f, s); }
    FreshWhenReadBackIff(profile, EvaluatedAll(profile, f, raw), d, store, skipFresh, doc);
  }
}
