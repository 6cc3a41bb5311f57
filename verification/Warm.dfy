/** The batched warm pass (packages/calc-engine/src/warm.ts:281-395). */
module Warm {
  import opened Strings
  import opened Json
  import opened Canonical
  import opened Profiles
  import opened Fingerprints
  import opened Shapes
  import opened Targets
  import opened Views
  import opened Evaluator
  import opened Roots
  import opened Statements
  import opened DualAssertion

  predicate PlanOrder(a: Slot, b: Slot)
  {
    a.stratum < b.stratum || (a.stratum == b.stratum && LexLe(a.scope, b.scope))
  }

  /** The slots of a type in writing order. */
  function PlanSlots(profile: Profile, typeName: string): (r: seq<Slot>)
    ensures multiset(r) == multiset(SlotsOf(profile, typeName))
  {
    Sort(PlanOrder, SlotsOf(profile, typeName))
  }

  /** One write per slot whose property holds a string, number or boolean. */
  function Writes(slots: seq<Slot>, entity: Json, fingerprint: string): seq<Write>
    requires entity.Obj?
  {
    if slots == [] then []
    else
      var last := slots[|slots| - 1];
      var value := Lookup(entity.fields, last.propertyName);
      Writes(slots[..|slots| - 1], entity, fingerprint)
      + if IsScalar(value) then [Write(last.path, Statement(value, fingerprint))] else []
  }

  /** `planForEntity` followed by `buildStatementWrites` */
  method PlanForEntity(profile: Profile, typeName: string, entity: Json, fingerprint: string)
    returns (writes: seq<Write>)
    requires entity.Obj?
    ensures writes == Writes(PlanSlots(profile, typeName), entity, fingerprint)
  {
    var slots := PlanSlots(profile, typeName);
    writes := [];
    for k := 0 to |slots|
      invariant writes == Writes(slots[..k], entity, fingerprint)
    {
      assert slots[..k + 1][..k] == slots[..k];
      var value := Lookup(entity.fields, slots[k].propertyName);
      if !value.Str? && !value.Num? && !value.Bool? { continue; }
      writes := writes + [Write(slots[k].path, Statement(value, fingerprint))];
    }
    assert slots[..|slots|] == slots;
  }

  lemma {:induction false} WritesConcat(a: seq<Slot>, b: seq<Slot>, entity: Json, fingerprint: string)
    requires entity.Obj?
    ensures Writes(a + b, entity, fingerprint) == Writes(a, entity, fingerprint) + Writes(b, entity, fingerprint)
  {
    if b == [] {
      assert a + b == a;
    } else {
      var n := |b| - 1;
      assert (a + b)[..|a + b| - 1] == a + b[..n];
      WritesConcat(a, b[..n], entity, fingerprint);
    }
  }

  /** Lower strata are written first, and scopes of one stratum in their order. */
  lemma PlannedInOrder(profile: Profile, typeName: string, i: nat, j: nat)
    requires i < j < |PlanSlots(profile, typeName)|
    ensures var a, b := PlanSlots(profile, typeName)[i], PlanSlots(profile, typeName)[j];
      a.stratum < b.stratum || (a.stratum == b.stratum && LexLe(a.scope, b.scope))
  {
    LexOrder();
    assert TotalPreorder(PlanOrder);
    SortSorted(PlanOrder, SlotsOf(profile, typeName));
  }

  /** The writes of two slots of a plan stand in the order of the slots. */
  lemma WritesInOrder(profile: Profile, typeName: string, entity: Json, fingerprint: string, i: nat, j: nat)
    returns (k: nat, l: nat)
    requires entity.Obj? && i < j < |PlanSlots(profile, typeName)|
    requires var slots := PlanSlots(profile, typeName);
      IsScalar(Lookup(entity.fields, slots[i].propertyName)) && IsScalar(Lookup(entity.fields, slots[j].propertyName))
    ensures var slots, writes := PlanSlots(profile, typeName), Writes(PlanSlots(profile, typeName), entity, fingerprint);
      && k < l < |writes|
      && writes[k] == Write(slots[i].path, Statement(Lookup(entity.fields, slots[i].propertyName), fingerprint))
      && writes[l] == Write(slots[j].path, Statement(Lookup(entity.fields, slots[j].propertyName), fingerprint))
  {
    var slots := PlanSlots(profile, typeName);
    k := WriteAt(slots, entity, fingerprint, i);
    l := WriteAt(slots, entity, fingerprint, j);
    WritesSplit(slots, entity, fingerprint, i);
    WritesSplit(slots, entity, fingerprint, j);
    WritesConcat(slots[..i + 1], slots[i + 1..j], entity, fingerprint);
    assert slots[..i + 1] + slots[i + 1..j] == slots[..j];
    assert slots[..i + 1][..i] == slots[..i];
  }

  lemma WritesSplit(slots: seq<Slot>, entity: Json, fingerprint: string, i: nat)
    requires entity.Obj? && i < |slots|
    ensures Writes(slots, entity, fingerprint) == Writes(slots[..i + 1], entity, fingerprint) + Writes(slots[i + 1..], entity, fingerprint)
  {
    assert slots == slots[..i + 1] + slots[i + 1..];
    WritesConcat(slots[..i + 1], slots[i + 1..], entity, fingerprint);
  }

  /** The write of a slot comes after those of the slots before it. */
  lemma WriteAt(slots: seq<Slot>, entity: Json, fingerprint: string, i: nat) returns (k: nat)
    requires entity.Obj? && i < |slots| && IsScalar(Lookup(entity.fields, slots[i].propertyName))
    ensures k == |Writes(slots[..i], entity, fingerprint)| < |Writes(slots, entity, fingerprint)|
    ensures Writes(slots, entity, fingerprint)[k] ==
            Write(slots[i].path, Statement(Lookup(entity.fields, slots[i].propertyName), fingerprint))
  {
    k := |Writes(slots[..i], entity, fingerprint)|;
    assert slots[..i + 1][..i] == slots[..i];
    WritesSplit(slots, entity, fingerprint, i);
  }

  function JobOf(profile: Profile, o: Occurrence): Job
    requires o.entity.Obj?
  {
    var fingerprint := Fingerprint(profile, o.typeName, o.entity);
    Job(Key(o.typeName, o.iri), fingerprint, Writes(PlanSlots(profile, o.typeName), o.entity, fingerprint))
  }

  predicate AreRecords(targets: seq<Occurrence>)
  {
    forall i :: 0 <= i < |targets| ==> targets[i].entity.Obj?
  }

  function TargetJobs(profile: Profile, targets: seq<Occurrence>): (r: seq<Job>)
    requires AreRecords(targets)
    ensures |r| == |targets|
  {
    seq(|targets|, i requires 0 <= i < |targets| => JobOf(profile, targets[i]))
  }

  lemma TargetsAreRecords(profile: Profile, doc: Json)
    ensures AreRecords(CalcTargets(doc, profile))
  {
    var targets := CalcTargets(doc, profile);
    forall i | 0 <= i < |targets| ensures targets[i].entity.Obj? {
      assert targets[i] in targets;
      TargetIsNode(doc, profile, targets[i]);
    }
  }

  /** What a pass does for one evaluated root document. */
  function JobsOf(profile: Profile, doc: Json): (r: seq<Job>)
    ensures |r| == |CalcTargets(doc, profile)|
  {
    TargetsAreRecords(profile, doc);
    TargetJobs(profile, CalcTargets(doc, profile))
  }

  lemma JobAt(profile: Profile, doc: Json, k: nat)
    requires k < |CalcTargets(doc, profile)|
    ensures CalcTargets(doc, profile)[k].entity.Obj?
    ensures JobsOf(profile, doc)[k] == JobOf(profile, CalcTargets(doc, profile)[k])
  {
    TargetsAreRecords(profile, doc);
  }

  function JobLists(profile: Profile, docs: seq<Json>): (r: seq<seq<Job>>)
    ensures |r| == |docs|
  {
    seq(|docs|, i requires 0 <= i < |docs| => JobsOf(profile, docs[i]))
  }

  function JobsOfDocs(profile: Profile, docs: seq<Json>): seq<Job>
  {
    Concat(JobLists(profile, docs))
  }

  /** The documents after one job: a written target is asserted on its records. */
  function DocsAfterJob(docs: Documents, rootType: string, store: Statements, job: Job, skipFresh: bool): Documents
  {
    if job.writes == [] || Skips(store, job, skipFresh) then docs else WriteBack(docs, rootType, job.key, job.writes)
  }

  function DocsAfter(docs: Documents, rootType: string, store: Statements, jobs: seq<Job>, skipFresh: bool): Documents
  {
    if jobs == [] then docs
    else
      var n := |jobs| - 1;
      DocsAfterJob(DocsAfter(docs, rootType, store, jobs[..n], skipFresh), rootType,
                   RunJobs(store, jobs[..n], skipFresh).store, jobs[n], skipFresh)
  }

  /**
   * A store of root documents with statements. Every write is a dual assertion and emits an
   * upsert event for its entity.
   */
  class WarmStore {
    var docs: Documents
    var statements: Statements
    var emitted: seq<Key>
    const rootType: string
    const canLoad: bool

    constructor (docs: Documents, rootType: string, canLoad: bool)
      ensures this.docs == docs && this.rootType == rootType && this.canLoad == canLoad
      ensures statements == map[] && emitted == []
    {
      this.docs, this.rootType, this.canLoad, statements, emitted := docs, rootType, canLoad, map[], [];
    }

    method WriteStatements(key: Key, writes: seq<Write>)
      modifies this
      ensures statements == Stored(old(statements), key, writes) && emitted == old(emitted) + [key]
      ensures docs == WriteBack(old(docs), rootType, key, writes)
    {
      var nodes := if key in statements then statements[key] else map[];
      ghost var before := nodes;
      for k := 0 to |writes|
        invariant nodes == Record(before, writes[..k])
      {
        assert writes[..k + 1][..k] == writes[..k];
        var w := writes[k];
        nodes := nodes[w.path := (if w.path in nodes then nodes[w.path] else []) + [w.statement]];
      }
      assert writes[..|writes|] == writes;
      statements, emitted := statements[key := nodes], emitted + [key];
      docs := WriteBack(docs, rootType, key, writes);
    }

    /** Skip a fresh target, or write its plan. */
    method WarmPlan(key: Key, fingerprint: string, writes: seq<Write>, skipFresh: bool, before: Tally)
      returns (t: Tally)
      requires before.store == statements && before.echoes == emitted
      modifies this
      ensures t == RunJob(before, Job(key, fingerprint, writes), skipFresh && canLoad)
      ensures t.store == statements && t.echoes == emitted
      ensures docs ==
        DocsAfterJob(old(docs), rootType, old(statements), Job(key, fingerprint, writes), skipFresh && canLoad)
    {
      t := before;
      if writes == [] { return; }
      if skipFresh && canLoad {
        var existing := Load(statements, key, PathsOf(writes));
        if AllFresh(existing, fingerprint) {
          t := t.(skippedFresh := t.skippedFresh + 1);
          return;
        }
      }
      WriteStatements(key, writes);
      t := Tally(statements, t.warmed + 1, t.skippedFresh, t.writesIssued + |writes|, emitted);
    }

    /** The loop body of `warm` for one target. */
    method WarmTarget(profile: Profile, target: Occurrence, skipFresh: bool, before: Tally) returns (t: Tally)
      requires target.entity.Obj? && before.store == statements && before.echoes == emitted
      modifies this
      ensures t == RunJob(before, JobOf(profile, target), skipFresh && canLoad)
      ensures t.store == statements && t.echoes == emitted
      ensures docs == DocsAfterJob(old(docs), rootType, old(statements), JobOf(profile, target), skipFresh && canLoad)
    {
      var fingerprint := FingerprintForEntity(profile, target.typeName, target.entity);
      var writes := PlanForEntity(profile, target.typeName, target.entity, fingerprint);
      t := WarmPlan(Key(target.typeName, target.iri), fingerprint, writes, skipFresh, before);
    }

    /** The targets of one evaluated document. */
    method WarmDoc(profile: Profile, doc: Json, skipFresh: bool, before: Tally) returns (t: Tally)
      requires before.store == statements && before.echoes == emitted
      modifies this
      ensures t == RunFrom(before, JobsOf(profile, doc), skipFresh && canLoad)
      ensures t.store == statements && t.echoes == emitted
      ensures docs == DocsAfter(old(docs), rootType, old(statements), JobsOf(profile, doc), skipFresh && canLoad)
    {
      t := before;
      var targets := CollectCalcTargets(doc, profile);
      ghost var jobs := JobsOf(profile, doc);
      for k := 0 to |targets|
        invariant PassedUpTo(before, old(docs), rootType, jobs, k, skipFresh && canLoad, t, docs)
        invariant t.store == statements && t.echoes == emitted
      {
        JobAt(profile, doc, k);
        RunStep(before, old(docs), rootType, jobs, k, skipFresh && canLoad, t, docs);
        t := WarmTarget(profile, targets[k], skipFresh, t);
      }
      WholePass(before, old(docs), rootType, jobs, skipFresh && canLoad, t, docs);
    }

    /** `warm` */
    method Warm(profile: Profile, f: Formula, host: Host, depth: nat, rootIRIs: seq<string>, skipFresh: bool)
      returns (warmed: nat, skippedFresh: nat, writesIssued: nat, queriesIssued: nat)
      modifies this
      ensures var jobs := PassJobs(profile, f, host, rootType, old(docs), depth, rootIRIs);
        var t := RunJobs(old(statements), jobs, skipFresh && canLoad);
        && statements == t.store && emitted == old(emitted) + t.echoes
        && docs == DocsAfter(old(docs), rootType, old(statements), jobs, skipFresh && canLoad)
        && warmed == t.warmed && skippedFresh == t.skippedFresh && writesIssued == t.writesIssued
      ensures depth == 0 || old(docs).deep.None? ==> queriesIssued == 1
      ensures depth > 0 && old(docs).deep.Some? ==>
        queriesIssued == 1 + if rootIRIs != [] then |rootIRIs| else |IdsOf(old(docs).rows)|
    {
      var values, queries := EvaluateForRoots(docs, profile, f, host, rootType, depth, rootIRIs);
      queriesIssued := queries;
      ghost var start := Tally(statements, 0, 0, 0, emitted);
      var t := Tally(statements, 0, 0, 0, emitted);
      for k := 0 to |values|
        invariant t == RunFrom(start, JobsOfDocs(profile, values[..k]), skipFresh && canLoad)
        invariant t.store == statements && t.echoes == emitted
        invariant docs ==
          DocsAfter(old(docs), rootType, old(statements), JobsOfDocs(profile, values[..k]), skipFresh && canLoad)
      {
        ghost var done := JobsOfDocs(profile, values[..k]);
        RunFromStore(start, done, skipFresh && canLoad);
        t := WarmDoc(profile, values[k], skipFresh, t);
        JobsSnoc(profile, values, k);
        RunConcat(start, done, JobsOf(profile, values[k]), skipFresh && canLoad);
        DocsConcat(old(docs), rootType, old(statements), done, JobsOf(profile, values[k]), skipFresh && canLoad);
      }
      assert values[..|values|] == values;
      RunFromStart(old(statements), old(emitted), JobsOfDocs(profile, values), skipFresh && canLoad);
      warmed, skippedFresh, writesIssued := t.warmed, t.skippedFresh, t.writesIssued;
    }
  }

  /** What a pass over some roots has to do. */
  function PassJobs(
      profile: Profile, f: Formula, host: Host, rootType: string, docs: Documents, depth: nat, rootIRIs: seq<string>)
    : seq<Job>
  {
    JobsOfDocs(profile, EvaluateDocs(profile, f, host, rootType, RawDocs(docs, rootIRIs, depth)))
  }

  function RunFrom(t: Tally, jobs: seq<Job>, skipFresh: bool): Tally
  {
    if jobs == [] then t
    else RunJob(RunFrom(t, jobs[..|jobs| - 1], skipFresh), jobs[|jobs| - 1], skipFresh)
  }

  /** Tally and documents are those after the first `k` jobs. */
  ghost predicate PassedUpTo(
      before: Tally, docs: Documents, rootType: string, jobs: seq<Job>, k: nat, skipFresh: bool, t: Tally, now: Documents)
    requires k <= |jobs|
  {
    t == RunFrom(before, jobs[..k], skipFresh) && now == DocsAfter(docs, rootType, before.store, jobs[..k], skipFresh)
  }

  lemma WholePass(
      before: Tally, docs: Documents, rootType: string, jobs: seq<Job>, skipFresh: bool, t: Tally, now: Documents)
    requires PassedUpTo(before, docs, rootType, jobs, |jobs|, skipFresh, t, now)
    ensures t == RunFrom(before, jobs, skipFresh) && now == DocsAfter(docs, rootType, before.store, jobs, skipFresh)
  {
    assert jobs[..|jobs|] == jobs;
  }

  lemma RunStep(
      before: Tally, docs: Documents, rootType: string, jobs: seq<Job>, k: nat, skipFresh: bool, t: Tally, now: Documents)
    requires k < |jobs| && PassedUpTo(before, docs, rootType, jobs, k, skipFresh, t, now)
    ensures PassedUpTo(before, docs, rootType, jobs, k + 1, skipFresh, RunJob(t, jobs[k], skipFresh),
                       DocsAfterJob(now, rootType, t.store, jobs[k], skipFresh))
  {
    RunFromSnoc(before, jobs, k, skipFresh);
    RunFromStore(before, jobs[..k], skipFresh);
    assert jobs[..k + 1][..k] == jobs[..k];
  }

  lemma RunFromSnoc(t: Tally, jobs: seq<Job>, k: nat, skipFresh: bool)
    requires k < |jobs|
    ensures RunFrom(t, jobs[..k + 1], skipFresh) == RunJob(RunFrom(t, jobs[..k], skipFresh), jobs[k], skipFresh)
  {
    assert jobs[..k + 1][..k] == jobs[..k];
  }

  /** Starting from a log of earlier echoes only prefixes the log. */
  lemma {:induction false} RunFromStart(store: Statements, log: seq<Key>, jobs: seq<Job>, skipFresh: bool)
    ensures var t := RunJobs(store, jobs, skipFresh);
      RunFrom(Tally(store, 0, 0, 0, log), jobs, skipFresh) == t.(echoes := log + t.echoes)
  {
    if jobs != [] {
      RunFromStart(store, log, jobs[..|jobs| - 1], skipFresh);
    }
  }

  lemma {:induction false} RunConcat(t: Tally, a: seq<Job>, b: seq<Job>, skipFresh: bool)
    ensures RunFrom(t, a + b, skipFresh) == RunFrom(RunFrom(t, a, skipFresh), b, skipFresh)
  {
    if b == [] {
      assert a + b == a;
    } else {
      var n := |b| - 1;
      assert (a + b)[..|a + b| - 1] == a + b[..n];
      RunConcat(t, a, b[..n], skipFresh);
    }
  }

  lemma {:induction false} RunFromStore(t: Tally, jobs: seq<Job>, skipFresh: bool)
    ensures RunFrom(t, jobs, skipFresh).store == RunJobs(t.store, jobs, skipFresh).store
  {
    if jobs != [] {
      RunFromStore(t, jobs[..|jobs| - 1], skipFresh);
    }
  }

  lemma {:induction false} StoreConcat(store: Statements, a: seq<Job>, b: seq<Job>, skipFresh: bool)
    ensures RunJobs(store, a + b, skipFresh).store == RunJobs(RunJobs(store, a, skipFresh).store, b, skipFresh).store
  {
    if b == [] {
      assert a + b == a;
    } else {
      var n := |b| - 1;
      assert (a + b)[..|a + b| - 1] == a + b[..n];
      StoreConcat(store, a, b[..n], skipFresh);
    }
  }

  lemma {:induction false} DocsConcat(
      docs: Documents, rootType: string, store: Statements, a: seq<Job>, b: seq<Job>, skipFresh: bool)
    ensures DocsAfter(docs, rootType, store, a + b, skipFresh) ==
            DocsAfter(DocsAfter(docs, rootType, store, a, skipFresh), rootType, RunJobs(store, a, skipFresh).store, b,
                      skipFresh)
  {
    if b == [] {
      assert a + b == a;
    } else {
      var n := |b| - 1;
      assert (a + b)[..|a + b| - 1] == a + b[..n];
      DocsConcat(docs, rootType, store, a, b[..n], skipFresh);
      StoreConcat(store, a, b[..n], skipFresh);
    }
  }

  lemma JobListsSnoc(profile: Profile, docs: seq<Json>, doc: Json)
    ensures JobLists(profile, docs + [doc]) == JobLists(profile, docs) + [JobsOf(profile, doc)]
  {
    var lists := JobLists(profile, docs + [doc]);
    forall i | 0 <= i < |lists| ensures lists[i] == (JobLists(profile, docs) + [JobsOf(profile, doc)])[i] {
      assert lists[i] == JobsOf(profile, (docs + [doc])[i]);
    }
  }

  lemma JobsSnoc(profile: Profile, docs: seq<Json>, k: nat)
    requires k < |docs|
    ensures JobsOfDocs(profile, docs[..k + 1]) == JobsOfDocs(profile, docs[..k]) + JobsOf(profile, docs[k])
  {
    assert docs[..k + 1] == docs[..k] + [docs[k]];
    JobListsSnoc(profile, docs[..k], docs[k]);
    ConcatSnoc(JobLists(profile, docs[..k]), JobsOf(profile, docs[k]));
  }

  // ----- copies of one entity -----

  lemma {:induction false} WritesFingerprint(slots: seq<Slot>, entity: Json, fingerprint: string, w: Write)
    requires entity.Obj? && w in Writes(slots, entity, fingerprint)
    ensures w.statement.fingerprint == fingerprint && IsScalar(w.statement.value)
    ensures exists s :: s in slots && s.path == w.path && w.statement.value == Lookup(entity.fields, s.propertyName)
  {
    var n := |slots| - 1;
    assert slots == slots[..n] + [slots[n]];
    if w in Writes(slots[..n], entity, fingerprint) {
      WritesFingerprint(slots[..n], entity, fingerprint, w);
    } else {
      assert slots[n] in slots;
    }
  }

  lemma JobHasOneFingerprint(profile: Profile, o: Occurrence)
    requires o.entity.Obj?
    ensures OneFingerprint(JobOf(profile, o))
  {
    forall w | w in JobOf(profile, o).writes ensures w.statement.fingerprint == JobOf(profile, o).fingerprint {
      WritesFingerprint(PlanSlots(profile, o.typeName), o.entity, JobOf(profile, o).fingerprint, w);
    }
  }

  /** Where a job comes from. */
  lemma JobOrigin(profile: Profile, docs: seq<Json>, job: Job) returns (d: nat, o: Occurrence)
    requires job in JobsOfDocs(profile, docs)
    ensures d < |docs| && o in CalcTargets(docs[d], profile) && o.entity.Obj? && job == JobOf(profile, o)
  {
    d := ConcatMember(JobLists(profile, docs), job);
    TargetsAreRecords(profile, docs[d]);
    var i :| 0 <= i < |JobsOf(profile, docs[d])| && JobsOf(profile, docs[d])[i] == job;
    o := CalcTargets(docs[d], profile)[i];
  }

  /** Targets of two documents that name one entity. */
  ghost predicate Copies(profile: Profile, docs: seq<Json>, d: nat, e: nat, o: Occurrence, p: Occurrence)
  {
    && d < |docs| && e < |docs|
    && o in CalcTargets(docs[d], profile) && p in CalcTargets(docs[e], profile)
    && o.typeName == p.typeName && o.iri == p.iri
  }

  /** Every two such targets hold the same data. */
  ghost predicate CopiesAgree(profile: Profile, docs: seq<Json>)
  {
    forall d, e, o, p :: Copies(profile, docs, d, e, o, p) ==>
                           WellFormed(o.entity) && WellFormed(p.entity) && ShapeOf(o.entity) == ShapeOf(p.entity)
  }

  ghost predicate CleanProfile(profile: Profile)
  {
    forall t, s :: s in SourcesOf(SlotsOf(profile, t)) ==> NamesData(s.path)
  }

  lemma CopiesAgreeSettle(profile: Profile, docs: seq<Json>)
    requires CopiesAgree(profile, docs) && CleanProfile(profile)
    ensures AllAgree(JobsOfDocs(profile, docs))
  {
    var jobs := JobsOfDocs(profile, docs);
    forall a, b | a in jobs && b in jobs ensures Agree(a, b) {
      var d, o := JobOrigin(profile, docs, a);
      var e, p := JobOrigin(profile, docs, b);
      if a.key == b.key {
        assert Copies(profile, docs, d, e, o, p);
        FingerprintStable(profile, o.typeName, o.entity, p.entity);
      }
    }
    JobsHaveOneFingerprint(profile, docs);
  }

  lemma JobsHaveOneFingerprint(profile: Profile, docs: seq<Json>)
    ensures forall a :: a in JobsOfDocs(profile, docs) ==> OneFingerprint(a)
  {
    forall a | a in JobsOfDocs(profile, docs) ensures OneFingerprint(a) {
      var _, o := JobOrigin(profile, docs, a);
      JobHasOneFingerprint(profile, o);
    }
  }

  /** In one document an IRI has one target. */
  lemma OneTargetPerIri(profile: Profile, doc: Json, o: Occurrence, p: Occurrence)
    requires o in CalcTargets(doc, profile) && p in CalcTargets(doc, profile) && o.iri == p.iri
    ensures o == p
  {
    TargetsSelected(doc, profile);
  }

  /** One root document never disagrees with itself. */
  lemma OneDocAgrees(profile: Profile, doc: Json)
    ensures AllAgree(JobsOfDocs(profile, [doc]))
  {
    var jobs := JobsOfDocs(profile, [doc]);
    forall a, b | a in jobs && b in jobs ensures Agree(a, b) {
      if a.key == b.key { JobOfKey(profile, doc, a, b); }
    }
    JobsHaveOneFingerprint(profile, [doc]);
  }

  lemma JobOfKey(profile: Profile, doc: Json, a: Job, b: Job)
    requires a in JobsOfDocs(profile, [doc]) && b in JobsOfDocs(profile, [doc]) && a.key == b.key
    ensures a == b
  {
    var d, o := JobOrigin(profile, [doc], a);
    var e, p := JobOrigin(profile, [doc], b);
    assert [doc][d] == doc && [doc][e] == doc;
    OneTargetPerIri(profile, doc, o, p);
  }

  lemma PassIsSilent(profile: Profile, docs: seq<Json>, store: Statements, skipFresh: bool)
    requires |docs| == 1 || (CopiesAgree(profile, docs) && CleanProfile(profile))
    ensures var jobs := JobsOfDocs(profile, docs);
      var first := RunJobs(store, jobs, skipFresh).store;
      RunJobs(first, jobs, true) == Tally(first, 0, Planned(jobs), 0, [])
  {
    if |docs| == 1 {
      assert docs == [docs[0]];
      OneDocAgrees(profile, docs[0]);
    } else {
      CopiesAgreeSettle(profile, docs);
    }
    WarmIdempotent(store, JobsOfDocs(profile, docs), skipFresh);
  }

  // ----- documents that carry outputs plan the same writes -----

  /** A job is for an identified record, and every write of it for a slot of its type. */
  ghost predicate WellMade(profile: Profile, job: Job)
  {
    job.key.iri != "" && WritesOutputs(ByStratum(profile), job.key.typeName, job.writes)
  }

  /** Statements are written under the property name a read asks for. */
  predicate PathsAreNames(profile: Profile)
  {
    forall s :: s in profile ==> s.path == s.propertyName
  }

  lemma PlanSlotsMember(profile: Profile, typeName: string, s: Slot)
    ensures s in PlanSlots(profile, typeName) <==> s in profile && Owns(s, typeName)
  {
    SameMembers(PlanSlots(profile, typeName), SlotsOf(profile, typeName));
    SlotsOfMember(profile, typeName, s);
  }

  lemma OwnedIsOutput(profile: Profile, typeName: string, s: Slot)
    requires s in profile && Owns(s, typeName)
    ensures IsOutput(ByStratum(profile), Some(typeName), s.propertyName)
  {
    var slots := ByStratum(profile);
    SameMembers(slots, profile);
    var i :| 0 <= i < |slots| && slots[i] == s;
  }

  lemma JobIsWellMade(profile: Profile, o: Occurrence)
    requires o.entity.Obj? && o.iri != "" && PathsAreNames(profile)
    ensures WellMade(profile, JobOf(profile, o))
  {
    var job := JobOf(profile, o);
    forall w | w in job.writes ensures IsOutput(ByStratum(profile), Some(o.typeName), w.path) {
      WritesFingerprint(PlanSlots(profile, o.typeName), o.entity, job.fingerprint, w);
      var s :| s in PlanSlots(profile, o.typeName) && s.path == w.path;
      PlanSlotsMember(profile, o.typeName, s);
      OwnedIsOutput(profile, o.typeName, s);
    }
  }

  lemma JobsAreWellMade(profile: Profile, docs: seq<Json>)
    requires PathsAreNames(profile)
    ensures forall j :: j in JobsOfDocs(profile, docs) ==> WellMade(profile, j)
  {
    forall j | j in JobsOfDocs(profile, docs) ensures WellMade(profile, j) {
      var d, o := JobOrigin(profile, docs, j);
      TargetIsNode(docs[d], profile, o);
      EntityIsNamed(docs[d], [], o);
      JobIsWellMade(profile, o);
    }
  }

  lemma {:induction false} WritesView(slots: seq<Slot>, plan: seq<Slot>, v: Json, w: Json, fingerprint: string)
    requires v.Obj? && ViewOf(slots, slots, v) == ViewOf(slots, slots, w)
    requires forall s :: s in plan ==> !IsSidecar(s.propertyName)
    ensures w.Obj? && Writes(plan, v, fingerprint) == Writes(plan, w, fingerprint)
  {
    if plan != [] {
      var n := |plan| - 1;
      WritesView(slots, plan[..n], v, w, fingerprint);
      assert plan[n] in plan;
      LookupView(slots, slots, v, w, plan[n].propertyName);
      var a, b := Lookup(v.fields, plan[n].propertyName), Lookup(w.fields, plan[n].propertyName);
      if IsScalar(a) { FlatView(slots, slots, a, b); }
      if IsScalar(b) { FlatView(slots, slots, b, a); }
    }
  }

  lemma JobView(profile: Profile, o: Occurrence, p: Occurrence)
    requires DataNames(ByStratum(profile)) && ShowsSources(ByStratum(profile), ByStratum(profile), profile)
    requires SameOccurrence(ByStratum(profile), ByStratum(profile), o, p) && o.entity.Obj?
    ensures p.entity.Obj? && JobOf(profile, o) == JobOf(profile, p)
  {
    var slots := ByStratum(profile);
    FingerprintView(slots, slots, profile, o.typeName, o.entity, p.entity);
    forall s | s in PlanSlots(profile, o.typeName) ensures !IsSidecar(s.propertyName) {
      PlanSlotsMember(profile, o.typeName, s);
      OwnedIsOutput(profile, o.typeName, s);
      OutputName(slots, Some(o.typeName), s.propertyName);
    }
    WritesView(slots, PlanSlots(profile, o.typeName), o.entity, p.entity, JobOf(profile, o).fingerprint);
  }

  /** Source paths name no sidecar. */
  lemma CleanProfileShows(profile: Profile)
    requires CleanProfile(profile)
    ensures ShowsSources(ByStratum(profile), ByStratum(profile), profile)
  {
    var slots := ByStratum(profile);
    forall t, s | s in SourcesOf(SlotsOf(profile, t)) ensures ShownPath(slots, slots, s.path) {
      assert NamesData(s.path);
      forall i | 0 <= i < |s.path| ensures ShownName(slots, slots, s.path[i]) { }
    }
  }

  /**
   * Documents that differ in computed properties and sidecars alone have the same targets
   * with the same fingerprints and the same writes: no output of an earlier pass is an input.
   */
  lemma SameInputsSameJobs(profile: Profile, f: Formula, v: Json, w: Json)
    requires Stratified(ByStratum(profile), f) && CleanProfile(profile) && SameInputs(profile, v, w)
    ensures JobsOf(profile, Evaluate(profile, f, v)) == JobsOf(profile, Evaluate(profile, f, w))
  {
    var slots, d, e := ByStratum(profile), Evaluate(profile, f, v), Evaluate(profile, f, w);
    CleanProfileShows(profile);
    EvaluatedAlike(profile, f, v, w);
    TargetsView(slots, slots, profile, d, e);
    TargetsAreRecords(profile, d);
    TargetsAreRecords(profile, e);
    forall i | 0 <= i < |JobsOf(profile, d)| ensures JobsOf(profile, d)[i] == JobsOf(profile, e)[i] {
      JobView(profile, CalcTargets(d, profile)[i], CalcTargets(e, profile)[i]);
    }
  }

  /** A host that evaluates every slot, over slots that can be evaluated in turn. */
  ghost predicate Regular(profile: Profile, f: Formula, host: Host)
  {
    && Stratified(ByStratum(profile), f) && CleanProfile(profile) && PathsAreNames(profile)
    && forall s :: s in profile ==> LiveOn(s, host)
  }

  lemma WrittenDocJobs(profile: Profile, f: Formula, host: Host, rootType: string, doc: Json, job: Job)
    requires Regular(profile, f, host) && GoodDoc(ByStratum(profile), rootType, doc) && WellMade(profile, job)
    ensures JobsOf(profile, EvaluateDoc(profile, f, host, rootType, WriteDoc(doc, rootType, job.key, job.writes)))
         == JobsOf(profile, EvaluateDoc(profile, f, host, rootType, doc))
  {
    AllSlotsLive(profile, host);
    WrittenSameInputs(profile, rootType, doc, job.key, job.writes);
    SameInputsSameJobs(profile, f, StampType(WriteDoc(doc, rootType, job.key, job.writes), rootType),
                       StampType(doc, rootType));
  }

  /** Evaluation adds and removes no entities: a target is an entity the root's document shows. */
  lemma TargetIsSeen(profile: Profile, f: Formula, host: Host, rootType: string, doc: Json, o: Occurrence) returns (seen: Seen)
    requires Regular(profile, f, host) && GoodDoc(ByStratum(profile), rootType, doc)
    requires o in CalcTargets(EvaluateDoc(profile, f, host, rootType, doc), profile)
    ensures seen in EntityViews(ViewOf(ByStratum(profile), [], StampType(doc, rootType)))
    ensures seen.typeName == o.typeName && seen.iri == o.iri
  {
    var slots, stamped := ByStratum(profile), StampType(doc, rootType);
    var e := EvaluateDoc(profile, f, host, rootType, doc);
    AllSlotsLive(profile, host);
    StampedIsTidy(slots, rootType, doc);
    SlotsTidy(slots, slots, f, stamped);
    EvaluateUnseen(slots, f, |slots|, stamped);
    assert slots[..|slots|] == slots;
    TargetIsNode(e, profile, o);
    EntitiesSeen(slots, [], e, []);
    var all := Entities(e, []);
    var i :| 0 <= i < |all| && all[i] == o;
    seen := SeenOf(slots, [], all)[i];
  }

  /** The roots that jobs write to are listed. */
  ghost predicate WritesPresent(docs: Documents, rootType: string, jobs: seq<Job>)
  {
    forall j :: j in jobs && j.writes != [] ==> IsListed(docs, rootType, j.key)
  }

  /** What a run plans is for entities that are there when it is planned. */
  lemma PassIsPresent(
      profile: Profile, f: Formula, host: Host, rootType: string, docs: Documents, depth: nat, rootIRIs: seq<string>)
    requires Regular(profile, f, host) && GoodDocuments(ByStratum(profile), rootType, docs)
    ensures WritesPresent(docs, rootType, PassJobs(profile, f, host, rootType, docs, depth, rootIRIs))
  {
    var raw := RawDocs(docs, rootIRIs, depth);
    forall j | j in PassJobs(profile, f, host, rootType, docs, depth, rootIRIs) && j.writes != []
      ensures IsListed(docs, rootType, j.key)
    {
      var d, o := JobOrigin(profile, EvaluateDocs(profile, f, host, rootType, raw), j);
      RawDocsGood(ByStratum(profile), rootType, docs, rootIRIs, depth);
      assert raw[d] in raw;
      var seen := TargetIsSeen(profile, f, host, rootType, raw[d], o);
      RawDocNamesRoots(ByStratum(profile), rootType, docs, rootIRIs, depth, raw[d]);
    }
  }

  lemma RawDocNamesRoots(
      slots: seq<Slot>, rootType: string, docs: Documents, iris: seq<string>, depth: nat, doc: Json)
    requires GoodDocuments(slots, rootType, docs) && doc in RawDocs(docs, iris, depth)
    ensures NamesRoots(slots, rootType, doc, IdsOf(docs.rows))
  {
    SelectionSound(docs, depth, iris, doc);
  }

  /** After a write every later run has the same jobs as before it. */
  lemma WrittenPassJobs(
      profile: Profile, f: Formula, host: Host, rootType: string, docs: Documents, depth: nat, rootIRIs: seq<string>,
      job: Job)
    requires Regular(profile, f, host) && GoodDocuments(ByStratum(profile), rootType, docs) && WellMade(profile, job)
    requires IsListed(docs, rootType, job.key)
    ensures PassJobs(profile, f, host, rootType, WriteBack(docs, rootType, job.key, job.writes), depth, rootIRIs)
         == PassJobs(profile, f, host, rootType, docs, depth, rootIRIs)
  {
    var slots, raw := ByStratum(profile), RawDocs(docs, rootIRIs, depth);
    var written := WriteDocs(raw, rootType, job.key, job.writes);
    WrittenRawDocs(slots, rootType, docs, rootIRIs, depth, job.key, job.writes);
    RawDocsGood(slots, rootType, docs, rootIRIs, depth);
    var a, b := EvaluateDocs(profile, f, host, rootType, written), EvaluateDocs(profile, f, host, rootType, raw);
    forall i | 0 <= i < |raw| ensures JobLists(profile, a)[i] == JobLists(profile, b)[i] {
      assert raw[i] in raw;
      WrittenDocJobs(profile, f, host, rootType, raw[i], job);
    }
    assert JobLists(profile, a) == JobLists(profile, b);
  }

  /** One job of a pass keeps the documents good and the jobs of every later run. */
  lemma JobKeepsJobs(
      profile: Profile, f: Formula, host: Host, rootType: string, docs: Documents, depth: nat, rootIRIs: seq<string>,
      job: Job)
    requires Regular(profile, f, host) && GoodDocuments(ByStratum(profile), rootType, docs) && WellMade(profile, job)
    requires IsListed(docs, rootType, job.key)
    ensures var after := WriteBack(docs, rootType, job.key, job.writes);
      && GoodDocuments(ByStratum(profile), rootType, after) && IdsOf(after.rows) == IdsOf(docs.rows)
      && PassJobs(profile, f, host, rootType, after, depth, rootIRIs)
         == PassJobs(profile, f, host, rootType, docs, depth, rootIRIs)
  {
    WriteBackKeeps(ByStratum(profile), rootType, docs, job.key, job.writes);
    WrittenRootDoc(ByStratum(profile), rootType, docs, depth, "", job.key, job.writes);
    WrittenPassJobs(profile, f, host, rootType, docs, depth, rootIRIs, job);
  }

  /** A whole pass keeps the documents good and the jobs of every later run. */
  lemma {:induction false} PassKeepsJobs(
      profile: Profile, f: Formula, host: Host, rootType: string, docs: Documents, depth: nat, rootIRIs: seq<string>,
      store: Statements, jobs: seq<Job>, skipFresh: bool)
    requires Regular(profile, f, host) && GoodDocuments(ByStratum(profile), rootType, docs)
    requires WritesPresent(docs, rootType, jobs) && forall j :: j in jobs ==> WellMade(profile, j)
    ensures var after := DocsAfter(docs, rootType, store, jobs, skipFresh);
      && GoodDocuments(ByStratum(profile), rootType, after) && IdsOf(after.rows) == IdsOf(docs.rows)
      && PassJobs(profile, f, host, rootType, after, depth, rootIRIs)
         == PassJobs(profile, f, host, rootType, docs, depth, rootIRIs)
  {
    if jobs != [] {
      var n := |jobs| - 1;
      PassKeepsJobs(profile, f, host, rootType, docs, depth, rootIRIs, store, jobs[..n], skipFresh);
      assert jobs[n] in jobs;
      if jobs[n].writes != [] {
        JobKeepsJobs(profile, f, host, rootType, DocsAfter(docs, rootType, store, jobs[..n], skipFresh), depth, rootIRIs, jobs[n]);
      }
    }
  }

  lemma {:induction false} SilentRunKeepsDocs(docs: Documents, rootType: string, store: Statements, jobs: seq<Job>)
    requires RunJobs(store, jobs, true).warmed == 0
    ensures DocsAfter(docs, rootType, store, jobs, true) == docs
  {
    if jobs != [] {
      SilentRunKeepsDocs(docs, rootType, store, jobs[..|jobs| - 1]);
    }
  }

  /**
   * Warm twice: the second pass reads the documents the first one has written to, and
   * writes nothing, whatever the first one did.
   */
  lemma WarmTwiceIsSilent(
      profile: Profile, f: Formula, host: Host, rootType: string, docs: Documents, depth: nat, rootIRIs: seq<string>,
      store: Statements, skipFresh: bool)
    requires Regular(profile, f, host) && GoodDocuments(ByStratum(profile), rootType, docs)
    requires var evaluated := EvaluateDocs(profile, f, host, rootType, RawDocs(docs, rootIRIs, depth));
      |evaluated| == 1 || CopiesAgree(profile, evaluated)
    ensures var jobs := PassJobs(profile, f, host, rootType, docs, depth, rootIRIs);
      var first, written := RunJobs(store, jobs, skipFresh).store, DocsAfter(docs, rootType, store, jobs, skipFresh);
      var again := PassJobs(profile, f, host, rootType, written, depth, rootIRIs);
      && RunJobs(first, again, true) == Tally(first, 0, Planned(jobs), 0, [])
      && DocsAfter(written, rootType, first, again, true) == written
  {
    var evaluated := EvaluateDocs(profile, f, host, rootType, RawDocs(docs, rootIRIs, depth));
    var jobs := JobsOfDocs(profile, evaluated);
    JobsAreWellMade(profile, evaluated);
    PassIsPresent(profile, f, host, rootType, docs, depth, rootIRIs);
    PassKeepsJobs(profile, f, host, rootType, docs, depth, rootIRIs, store, jobs, skipFresh);
    PassIsSilent(profile, evaluated, store, skipFresh);
    SilentRunKeepsDocs(DocsAfter(docs, rootType, store, jobs, skipFresh), rootType, RunJobs(store, jobs, skipFresh).store, jobs);
  }
}
