/**
 * The results about reads, for the report that `readCalcValuesForRoot` returns: it is about the
 * document a pass reads for that root, the deep one when the plan needs it
 * (packages/calc-engine/src/readCalcValues.ts:160-258).
 */
module Reported {
  import opened Json
  import opened Profiles
  import opened Targets
  import opened Views
  import opened Evaluator
  import opened Roots
  import opened Statements
  import opened DualAssertion
  import opened Warm
  import opened ReadCalcValues
  import opened Coherence
  import opened WarmThenRead
  import opened FreshReads
  import opened WarmedReads

  /** The report for a root the store lists, with the listed row. */
  ghost predicate ReportsListed(
      report: Report, store: Statements, profile: Profile, f: Formula, host: Host, docs: Documents, depth: nat,
      iri: string)
  {
    && RowWithId(docs.rows, iri).Some?
    && Reports(report, store, profile, f, host, docs, depth, iri, RowWithId(docs.rows, iri))
  }

  /** No root has two rows. */
  ghost predicate OneRowEach(rows: seq<Json>)
  {
    forall i, j :: 0 <= i < j < |rows| && EntityId(rows[i]).Some? ==> EntityId(rows[i]) != EntityId(rows[j])
  }

  /** Over such rows each report of a list is the one for the listed row, or says that there is none. */
  lemma ManyAreListed(
      reports: seq<Report>, store: Statements, profile: Profile, f: Formula, host: Host, docs: Documents, depth: nat,
      iris: seq<string>, k: nat)
    requires OneRowEach(docs.rows) && AllReported(reports, store, profile, f, host, docs, depth, iris) && k < |iris|
    ensures if RowWithId(docs.rows, iris[k]).Some?
            then ReportsListed(reports[k], store, profile, f, host, docs, depth, iris[k])
            else reports[k] == Report(None, UnknownState, 1)
  {
    assert ReportedAt(reports, store, profile, f, host, docs, depth, iris, k);
    FirstIsLast(docs.rows, iris[k]);
  }

  lemma FirstIsLast(rows: seq<Json>, iri: string)
    requires OneRowEach(rows)
    ensures LastRowWithId(rows, iri) == RowWithId(rows, iri)
  {
    RowWithIdIn(rows, iri);
    LastRowIsLast(rows, iri);
    if LastRowWithId(rows, iri).Some? {
      var k :| 0 <= k < |rows| && LastRowWithId(rows, iri) == Some(rows[k]) && EntityId(rows[k]) == Some(iri);
      RowWithIdFound(rows, iri, k);
    }
  }

  lemma {:induction false} RowWithIdFound(rows: seq<Json>, iri: string, k: nat)
    requires OneRowEach(rows) && k < |rows| && EntityId(rows[k]) == Some(iri)
    ensures RowWithId(rows, iri) == Some(rows[k])
  {
    if k > 0 {
      assert EntityId(rows[0]) != Some(iri);
      RowWithIdFound(rows[1..], iri, k - 1);
    }
  }

  /** It is about the root's document. */
  lemma ReportOfRoot(
      report: Report, store: Statements, profile: Profile, f: Formula, host: Host, docs: Documents, depth: nat,
      iri: string, doc: Json)
    requires ReportsListed(report, store, profile, f, host, docs, depth, iri) && RootDoc(docs, depth, iri) == Some(doc)
    ensures report.data == Some(ReadData(store, profile, f, host, doc))
    ensures report.freshness == Verdict(store, profile, CalcTargets(doc, profile))
  {
  }

  /**
   * After a pass that skips nothing, the report about a root whose document is the one the pass
   * evaluated, apart from outputs and sidecars, is fresh and serves what the pass wrote.
   */
  lemma {:induction false} ReportAfterWarm(
      report: Report, profile: Profile, f: Formula, raw: seq<Json>, store: Statements, d: nat, host: Host,
      docs: Documents, depth: nat, iri: string, doc: Json, unread: seq<Slot>)
    requires CopiesAgree(profile, EvaluatedAll(profile, f, raw)) && CleanProfile(profile)
    requires UniquePaths(profile) && PathsAreNames(profile)
    requires d < |raw| && Returned(profile, f, raw[d], doc, unread) && AllScalar(profile, Evaluate(profile, f, raw[d]))
    requires exists o :: o in CalcTargets(doc, profile) && SlotsOf(profile, o.typeName) != []
    requires OutputsAreFlat(doc, profile, CalcTargets(doc, profile)) && RootDoc(docs, depth, iri) == Some(doc)
    requires var after := RunJobs(store, JobsOfDocs(profile, EvaluatedAll(profile, f, raw)), false).store;
      ReportsListed(report, after, profile, f, host, docs, depth, iri)
    ensures report.freshness == FreshState && report.data.Some?
    ensures Serves(profile, Evaluate(profile, f, raw[d]), doc, report.data.value)
  {
    var after := RunJobs(store, JobsOfDocs(profile, EvaluatedAll(profile, f, raw)), false).store;
    ReportOfRoot(report, after, profile, f, host, docs, depth, iri, doc);
    WarmThenReadIsFresh(profile, f, raw, store, d, doc, unread);
    forall k: nat, slot | IsAsked(profile, doc, k, slot)
      ensures ServesAt(profile, Evaluate(profile, f, raw[d]), doc, report.data.value, k, slot)
    {
      WarmThenReadServesWrittenValues(profile, f, raw, store, d, doc, unread, k, slot);
    }
  }

  ghost predicate IsAsked(profile: Profile, doc: Json, k: nat, slot: Slot)
  {
    k < |CalcTargets(doc, profile)| && slot in profile && Owns(slot, CalcTargets(doc, profile)[k].typeName)
  }

  /** The record of target k has the value it has in the evaluated document. */
  ghost predicate ServesAt(profile: Profile, e: Json, doc: Json, data: Json, k: nat, slot: Slot)
    requires k < |CalcTargets(doc, profile)|
  {
    var r := NodeAt(data, CalcTargets(doc, profile)[k].at);
    && k < |CalcTargets(e, profile)| && CalcTargets(e, profile)[k].entity.Obj? && r.Obj?
    && Lookup(r.fields, slot.propertyName) == Lookup(CalcTargets(e, profile)[k].entity.fields, slot.propertyName)
  }

  ghost predicate Serves(profile: Profile, e: Json, doc: Json, data: Json)
  {
    forall k: nat, slot :: IsAsked(profile, doc, k, slot) ==> ServesAt(profile, e, doc, data, k, slot)
  }

  /** A store is warmed over some roots; then the report about one of them, from the documents it has then, is fresh. */
  lemma {:induction false} ReportOfWarmedRoot(
      report: Report, profile: Profile, f: Formula, host: Host, reader: Host, rootType: string, docs: Documents,
      depth: nat, rootIRIs: seq<string>, store: Statements, root: string, d: nat, jobs: seq<Job>, doc: Json)
    requires Regular(profile, f, host) && GoodDocuments(ByStratum(profile), rootType, docs)
    requires jobs == PassJobs(profile, f, host, rootType, docs, depth, rootIRIs)
    requires var raw := RawDocs(docs, rootIRIs, depth);
      && d < |raw| && RootDoc(docs, depth, root) == Some(raw[d]) && Typed(raw[d])
      && FullPass(profile, f, StampedDocs(rootType, raw), d, rootType)
    requires RootDoc(DocsAfter(docs, rootType, store, jobs, false), depth, root) == Some(doc)
    requires exists o :: o in CalcTargets(doc, profile) && SlotsOf(profile, o.typeName) != []
    requires ReportsListed(report, RunJobs(store, jobs, false).store, profile, f, reader,
                           DocsAfter(docs, rootType, store, jobs, false), depth, root)
    ensures report.freshness == FreshState
  {
    WarmedStoreReadsFresh(profile, f, host, rootType, docs, depth, rootIRIs, store, root, d, jobs, doc);
    ReportOfRoot(report, RunJobs(store, jobs, false).store, profile, f, reader,
                 DocsAfter(docs, rootType, store, jobs, false), depth, root, doc);
  }

  /** In every reachable store a fresh report shows what evaluating the root's document gives. */
  lemma {:induction false} FreshReportShowsEvaluation(
      report: Report, b: Basis, host: Host, steps: seq<Step>, docs: Documents, depth: nat, iri: string, doc: Json,
      unread: seq<Slot>)
    requires Grounded(b) && b.trusted == b.profile && PathsAreNames(b.profile)
    requires forall k :: 0 <= k < |steps| ==> Observes(b, steps[k].host, steps[k].doc)
    requires FingerprintsDetermine(b.profile, b.f, b.occurs) && AllOccur(b.occurs, CalcTargets(doc, b.profile))
    requires Readable(b.profile, b.f, doc, unread) && OwnersAreTargets(b.profile, doc)
    requires OutputsAreFlat(doc, b.profile, CalcTargets(doc, b.profile)) && RootDoc(docs, depth, iri) == Some(doc)
    requires ReportsListed(report, After(b.profile, b.f, steps), b.profile, b.f, host, docs, depth, iri)
    requires report.freshness == FreshState
    ensures report.data.Some?
    ensures SameView(ByStratum(b.profile), ByStratum(b.profile), report.data.value, Evaluate(b.profile, b.f, doc))
  {
    ReportOfRoot(report, After(b.profile, b.f, steps), b.profile, b.f, host, docs, depth, iri, doc);
    ReachableReadShowsEvaluation(b, host, steps, doc, unread);
  }

  /** Any other report computes every slot the host evaluates on the root's document, and leaves the rest of it alone. */
  lemma ReportIsComputed(
      report: Report, store: Statements, profile: Profile, f: Formula, host: Host, docs: Documents, depth: nat,
      iri: string, doc: Json)
    requires ReportsListed(report, store, profile, f, host, docs, depth, iri) && RootDoc(docs, depth, iri) == Some(doc)
    requires Stratified(ByStratum(LiveSlots(profile, host)), f) && report.freshness != FreshState
    ensures report.data.Some? && forall s :: s in LiveSlots(profile, host) ==> Solves(s, f, report.data.value)
    ensures SameView(ByStratum(LiveSlots(profile, host)), [], report.data.value, doc)
  {
    ReportOfRoot(report, store, profile, f, host, docs, depth, iri, doc);
    ComputedUnlessFresh(store, profile, f, host, doc);
  }
}
