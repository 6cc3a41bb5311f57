/**
 * An edit that a starting worker never hears of: one city, one slot that copies its name, and a
 * rename between the sweep and the subscription (packages/calc-worker/src/createCalcWorker.ts:58-75).
 */
module LostEdit {
  import opened Strings
  import opened Json
  import opened Canonical
  import opened Profiles
  import opened Fingerprints
  import Shapes
  import opened Targets
  import opened Views
  import opened Evaluator
  import opened Roots
  import opened Statements
  import opened DualAssertion
  import opened Warm
  import opened Climb
  import opened Scheduler
  import opened Invalidation
  import opened References
  import Engine
  import Pushdown
  import opened Startup
  import opened PlainFormulas
  import opened CalcSystem

  const LABEL := Slot("#/definitions/City/properties/label", Some("City"), "label", "label", 1,
                      [Source("name", ["name"])], None, false, 0)

  /** A formula that gives its first binding. */
  const COPY := Calculator((_, values) => if values != [] && IsFlat(values[0]) then values[0] else Null, _ => Null, _ => 0)

  const WORKER :=
    Config(PlainFormula(COPY), Host(false, 0), 0, true, Setup([LABEL], _ => [], [], "City", None))

  function CityNamed(name: string): Json
  {
    Obj([Field("@id", Str("c")), Field("@type", Str("City")), Field("name", Str(name))])
  }

  function DocsNamed(name: string): Documents
  {
    Documents([CityNamed(name)], None)
  }

  lemma LabelIsLayered()
    ensures ByStratum([LABEL]) == [LABEL] && Layered([LABEL])
  {
    assert [LABEL][1..] == [] && [LABEL] + [] == [LABEL];
    assert !IsSidecar("name") && !IsSidecar("label");
    forall i | 0 <= i < 1 ensures ReadsPaths([LABEL], [LABEL][..i], [LABEL][i]) {
      forall j | 0 <= j < 1 ensures ShownName([LABEL], [], ["name"][j]) { }
    }
  }

  lemma LabelSources(t: string)
    ensures SourcesOf(SlotsOf([LABEL], t)) == if t == "City" then [Source("name", ["name"])] else []
  {
    assert [LABEL][1..] == [];
    assert SlotsOf([LABEL], t) == if t == "City" then [LABEL] else [];
    assert LABEL.sources + [] == LABEL.sources;
  }

  lemma WorkerIsSafe()
    ensures Safe(WORKER)
  {
    LabelIsLayered();
    PlainIsStratified([LABEL], COPY);
    forall t, s | s in SourcesOf(SlotsOf([LABEL], t)) ensures Shapes.NamesData(s.path) {
      LabelSources(t);
      assert !IsSidecar("name");
    }
    assert PlainName("City");
    assert Regular([LABEL], PlainFormula(COPY), Host(false, 0));
  }

  // ----- the documents -----

  lemma CityFields(name: string)
    ensures var fields := CityNamed(name).fields;
      && Lookup(fields, "@id") == Str("c") && Lookup(fields, "@type") == Str("City") && Lookup(fields, "name") == Str(name)
    ensures EntityId(CityNamed(name)) == Some("c") && EntityType(CityNamed(name)) == Some("City")
    ensures StampType(CityNamed(name), "City") == CityNamed(name)
  {
    var fields := CityNamed(name).fields;
    assert fields[1..] == [Field("@type", Str("City")), Field("name", Str(name))];
    assert fields[1..][1..] == [Field("name", Str(name))];
    assert Lookup(fields[1..], "@type") == Str("City");
    assert Lookup(fields[1..][1..], "name") == Str(name);
    assert Lookup(fields[1..], "name") == Str(name);
    PlainType("City", fields);
  }

  lemma CityCore(name: string)
    ensures var core := CoreViews([LABEL], [], Some("City"), CityNamed(name).fields);
      && ViewLookup(core, "@id") == Some(Leaf(Str("c"))) && CoreEntities(core) == []
      && forall i :: 0 <= i < |core| ==> core[i].view.Leaf?
  {
    var fields := CityNamed(name).fields;
    CityFields(name);
    LeavesOnly(fields);
    assert !IsSidecar("@id") && !IsOutput([LABEL], Some("City"), "@id");
    assert fields[0].key == "@id";
    CoreLookup([LABEL], [], Some("City"), fields, "@id");
  }

  /** The city shows its three fields and no other record. */
  lemma CityView(name: string)
    ensures var view := ViewOf([LABEL], [], CityNamed(name));
      && view.Rec? && view.typeName == Some("City") && EntityViews(view) == OwnView(view) == [Seen("City", "c", view)]
      && forall i :: 0 <= i < |view.core| ==> view.core[i].view.Leaf?
  {
    CityFields(name);
    CityCore(name);
    var view := ViewOf([LABEL], [], CityNamed(name));
    assert view.Rec? && view.typeName == Some("City");
    assert OwnView(view) == [Seen("City", "c", view)];
    assert OwnView(view) + [] == OwnView(view);
  }

  lemma {:induction false} LeavesOnly(fields: seq<Field>)
    requires forall i :: 0 <= i < |fields| ==> fields[i].value.Str?
    ensures var core := CoreViews([LABEL], [], Some("City"), fields);
      (forall i :: 0 <= i < |core| ==> core[i].view.Leaf?) && CoreEntities(core) == []
  {
    if fields != [] {
      LeavesOnly(fields[1..]);
      var rest := CoreViews([LABEL], [], Some("City"), fields[1..]);
      if !Dropped([LABEL], Some("City"), fields[0].key) {
        var first := Shown(fields[0].key, ViewOf([LABEL], [], fields[0].value));
        assert ([first] + rest)[1..] == rest;
      } else {
        assert [] + rest == rest;
      }
    }
  }

  lemma CityIsGood(name: string)
    ensures GoodDocuments([LABEL], "City", DocsNamed(name)) && IdsOf(DocsNamed(name).rows) == ["c"]
  {
    var doc := CityNamed(name);
    CityFields(name);
    CityView(name);
    assert DocsNamed(name).rows[1..] == [];
    forall i | 0 <= i < |doc.fields| ensures Inert(doc.fields[i].value) && Tidy([LABEL], doc.fields[i].value) {
      FlatIsInert(doc.fields[i].value);
      FlatIsTidy([LABEL], doc.fields[i].value);
    }
    assert UniqueKeys(doc.fields);
    assert GoodDoc([LABEL], "City", doc);
  }

  lemma CityIsAdmissible(name: string)
    ensures Admissible(WORKER, DocsNamed(name)) && ListedDoc(WORKER, DocsNamed(name), "c") == Some(CityNamed(name))
  {
    LabelIsLayered();
    CityIsGood(name);
    CityFields(name);
    CityView(name);
    forall root | RootView(WORKER, DocsNamed(name), root).Some?
      ensures FollowsEdges([], "City", root, RootView(WORKER, DocsNamed(name), root).value)
    {
      assert root == "c";
    }
  }

  // ----- the job of the city -----

  lemma SameCity(doc: Json, e: Json, name: string)
    requires doc == CityNamed(name) && SameView([LABEL], [], e, doc)
    ensures e.Obj? && EntityType(e) == Some("City") && EntityId(e) == Some("c") && Lookup(e.fields, "name") == Str(name)
  {
    CityFields(name);
    assert !IsSidecar("@id") && !IsSidecar("name");
    LookupView([LABEL], [], doc, e, "@id");
    LookupView([LABEL], [], doc, e, "name");
    FlatView([LABEL], [], Str("c"), Lookup(e.fields, "@id"));
    FlatView([LABEL], [], Str(name), Lookup(e.fields, "name"));
  }

  lemma CopiedName(e: Json, name: string)
    requires e.Obj? && Lookup(e.fields, "name") == Str(name)
    ensures PlainFormula(COPY)(LABEL, e) == Str(name)
  {
    assert ["name"][1..] == [] && ["name"][0] == "name";
    assert Pushdown.Get(e, ["name"]) == Str(name);
    assert Reading(e, ["name"]) == Str(name);
    assert Readings(LABEL.sources, e) == [Str(name)];
  }

  lemma CityWrites(o: Occurrence, name: string)
    requires o.entity.Obj? && o.typeName == "City" && Lookup(o.entity.fields, "label") == Str(name)
    ensures JobOf([LABEL], o).writes != []
  {
    assert [LABEL][1..] == [] && [LABEL][..0] == [];
    assert SlotsOf([LABEL], "City") == [LABEL];
    assert Sort(PlanOrder, [LABEL]) == [LABEL];
  }

  /** Evaluation copies the name, and the city is a target with one write. */
  lemma CityJob(name: string) returns (o: Occurrence)
    ensures var e := Evaluated(WORKER, CityNamed(name));
      && o in CalcTargets(e, [LABEL]) && o.typeName == "City" && o.iri == "c" && o.entity == e && e.Obj? && WellFormed(e)
      && Lookup(e.fields, "name") == Str(name) && JobOf([LABEL], o).writes != []
  {
    var doc, f := CityNamed(name), PlainFormula(COPY);
    WorkerIsSafe();
    LabelIsLayered();
    CityFields(name);
    CityIsGood(name);
    AllSlotsLive([LABEL], WORKER.host);
    var e := Evaluated(WORKER, doc);
    assert e == Evaluate([LABEL], f, doc);
    EvaluateUnseen([LABEL], f, 1, doc);
    assert [LABEL][..1] == [LABEL];
    SlotsWellFormed([LABEL], f, doc);
    SameCity(doc, e, name);
    o := Own(e, [])[0];
    RootIsTarget(e, [LABEL]);
    EvaluateSolves([LABEL], f, doc);
    assert LABEL in [LABEL] && Solves(LABEL, f, e);
    CopiedName(e, name);
    CityWrites(o, name);
  }

  /** The fingerprint of a city tells its name. */
  lemma NameIsTold(d: Json, e: Json, a: string, b: string)
    requires d.Obj? && e.Obj? && WellFormed(d) && WellFormed(e)
    requires Lookup(d.fields, "name") == Str(a) && Lookup(e.fields, "name") == Str(b)
    requires Fingerprint([LABEL], "City", d) == Fingerprint([LABEL], "City", e)
    ensures a == b
  {
    var source := Source("name", ["name"]);
    assert source in SourcesOf(SlotsOf([LABEL], "City")) && CleanSources(SourcesOf(SlotsOf([LABEL], "City"))) by {
      LabelSources("City");
    }
    FingerprintFaithful([LABEL], "City", d, e);
    assert SourceValues(d, source.path) == SourceValues(e, source.path);
    NameValue(d, a);
    NameValue(e, b);
    assert NStr(a) in multiset{NStr(b)};
  }

  lemma NameValue(d: Json, a: string)
    requires d.Obj? && Lookup(d.fields, "name") == Str(a)
    ensures SourceValues(d, ["name"]) == multiset{NStr(a)}
  {
    assert ["name"][1..] == [] && ["name"][0] == "name";
    assert Values(d, ["name"], EntityId(d)) == [PathValue(Str(a), Or(EntityId(d), EntityId(d)))];
    assert Denotations(Values(d, ["name"], EntityId(d))) == [NStr(a)];
  }

  lemma SweepReads(name: string)
    ensures RawDocs(DocsNamed(name), [], 0) == [CityNamed(name)]
    ensures EvaluateDocs([LABEL], WORKER.f, WORKER.host, "City", [CityNamed(name)]) == [Evaluated(WORKER, CityNamed(name))]
  {
  }

  /** What a sweep plans for the city is the one job of its target. */
  lemma SweepPlans(p: Occurrence, name: string, i: Job)
    requires i in JobsOfDocs([LABEL], [Evaluated(WORKER, CityNamed(name))]) && i.key == Key("City", "c")
    requires p in CalcTargets(Evaluated(WORKER, CityNamed(name)), [LABEL]) && p.typeName == "City" && p.iri == "c"
    ensures p.entity.Obj? && i == JobOf([LABEL], p)
  {
    var e := Evaluated(WORKER, CityNamed(name));
    var d, q := JobOrigin([LABEL], [e], i);
    assert [e][d] == e;
    OneTargetPerIri([LABEL], e, p, q);
  }

  /**
   * The city is renamed after the sweep and before the subscription: the worker rests for ever
   * with the label of the old name.
   */
  lemma RenameIsLost() returns (f: nat -> Worker, k: nat)
    ensures f(0) == Started(WorldOf(WORKER), DocsNamed("a"), map[], true) && WorkerRun(WorldOf(WORKER), f, k)
    ensures forall n :: n > k ==>
              f(n).Live? && Engine.Quiescent(f(n).state) && !Engine.AllFreshNow(WorldOf(WORKER), f(n).state)
  {
    var w := WorldOf(WORKER);
    WorkerIsSafe();
    WorldIsFaithful(WORKER);
    CityIsAdmissible("a");
    CityIsAdmissible("b");
    var j := RenamedJob();
    f, k := EditIsLost(w, DocsNamed("a"), map[], DocsNamed("b"), "c", j);
  }

  /** A job of the renamed city has a fingerprint the sweep has not planned. */
  lemma SweepPlansOther(p: Occurrence, o: Occurrence, i: Job)
    requires i in JobsOfDocs([LABEL], [Evaluated(WORKER, CityNamed("a"))]) && i.key == Key("City", "c")
    requires p in CalcTargets(Evaluated(WORKER, CityNamed("a")), [LABEL]) && p.typeName == "City" && p.iri == "c"
    requires p.entity.Obj? && o.entity.Obj? && WellFormed(p.entity) && WellFormed(o.entity)
    requires Lookup(p.entity.fields, "name") == Str("a") && Lookup(o.entity.fields, "name") == Str("b")
    ensures i.fingerprint != Fingerprint([LABEL], "City", o.entity)
  {
    SweepPlans(p, "a", i);
    if i.fingerprint == Fingerprint([LABEL], "City", o.entity) { NameIsTold(p.entity, o.entity, "a", "b"); }
  }

  lemma SweepJobs()
    ensures TaskJobs(WORKER, DocsNamed("a"), FULL_SWEEP) == JobsOfDocs([LABEL], [Evaluated(WORKER, CityNamed("a"))])
    ensures forall i :: i in TaskJobs(WORKER, DocsNamed("a"), FULL_SWEEP) ==> OneFingerprint(i)
  {
    SweepReads("a");
    JobsHaveOneFingerprint([LABEL], [Evaluated(WORKER, CityNamed("a"))]);
  }

  lemma TargetsJob(e: Json, o: Occurrence)
    requires o in CalcTargets(e, [LABEL]) && o.entity.Obj?
    ensures JobOf([LABEL], o) in JobsOf([LABEL], e)
  {
    var i :| 0 <= i < |CalcTargets(e, [LABEL])| && CalcTargets(e, [LABEL])[i] == o;
    assert JobsOf([LABEL], e)[i] == JobOf([LABEL], o);
  }

  /** The job of the renamed city, which the sweep has not settled. */
  lemma RenamedJob() returns (j: Job)
    ensures j in RootJobs(WORKER, DocsNamed("b"), "c") && j.writes != []
    ensures !Settled(RunJobs(map[], TaskJobs(WORKER, DocsNamed("a"), FULL_SWEEP), true).store, j)
  {
    CityIsAdmissible("b");
    var p := CityJob("a");
    var o := CityJob("b");
    j := JobOf([LABEL], o);
    TargetsJob(Evaluated(WORKER, CityNamed("b")), o);
    SweepJobs();
    var jobs := TaskJobs(WORKER, DocsNamed("a"), FULL_SWEEP);
    if Settled(RunJobs(map[], jobs, true).store, j) {
      SettledWasPlanned(jobs, true, j);
      var i :| i in jobs && i.key == j.key && i.fingerprint == j.fingerprint;
      SweepPlansOther(p, o, i);
    }
  }
}
