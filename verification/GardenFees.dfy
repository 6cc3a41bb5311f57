/**
 * The fee profile of the repository's fixtures (packages/calc-fixtures/src/garden-fee.ts:53-68)
 * meets the conditions of the theorems on plain formulas.
 */
module GardenFees {
  import opened Strings
  import opened Json
  import opened Canonical
  import opened Profiles
  import opened Fingerprints
  import opened Views
  import opened Evaluator
  import opened Warm
  import opened Coherence
  import opened PlainFormulas
  import opened Climb
  import opened ClimbCoverage
  import opened Invalidation
  import opened CalcSystem
  import Shapes
  import Targets

  function Named(name: string): Source
  {
    Source(name, [name])
  }

  const PLOT_AREA := Slot("#/definitions/Plot/properties/billable_area", Some("Plot"), "billable_area", "billable_area",
                          1, [Named("width_m"), Named("length_m")], None, false, 1)

  const PATCH_TOTAL := Slot("#/definitions/Patch/properties/billable_area_total", Some("Patch"), "billable_area_total",
                            "billable_area_total", 2,
                            [Named("plots"), Source("plots.billable_area", ["plots", "billable_area"])],
                            Some(Aggregate(Sum, ["plots"], Some(["billable_area"]))), false, 1)

  const GARDEN_TOTAL := Slot("#/definitions/Garden/properties/total_billable", Some("Garden"), "total_billable",
                             "total_billable", 3,
                             [Source("patch.billable_area_total", ["patch", "billable_area_total"])], None, false, 1)

  const ANNUAL_FEE := Slot("#/definitions/Garden/properties/annual_fee", Some("Garden"), "annual_fee", "annual_fee",
                           4, [Named("total_billable"), Named("fee_rate_per_sqm")], None, false, 1)

  const FEES: Profile := [PLOT_AREA, PATCH_TOTAL, GARDEN_TOTAL, ANNUAL_FEE]

  lemma NoSidecar(name: string)
    requires name != "" && name[|name| - 1] != 't'
    ensures !IsSidecar(name)
  {
  }

  const NAMES := {"billable_area", "billable_area_total", "total_billable", "annual_fee", "width_m", "length_m", "plots",
                  "patch", "fee_rate_per_sqm"}

  lemma NamesArePlain()
    ensures forall name :: name in NAMES ==> !IsSidecar(name)
  {
    NoSidecar("billable_area");
    NoSidecar("billable_area_total");
    NoSidecar("total_billable");
    NoSidecar("annual_fee");
    NoSidecar("width_m");
    NoSidecar("length_m");
    NoSidecar("plots");
    NoSidecar("patch");
    NoSidecar("fee_rate_per_sqm");
  }

  lemma SortsAhead(x: Slot, rest: seq<Slot>)
    requires Sort(EarlierStratum, rest) == rest && (rest != [] ==> x.stratum <= rest[0].stratum)
    ensures Sort(EarlierStratum, [x] + rest) == [x] + rest
  {
    assert ([x] + rest)[1..] == rest;
  }

  lemma FeesInOrder()
    ensures ByStratum(FEES) == FEES
  {
    SortsAhead(ANNUAL_FEE, []);
    assert [ANNUAL_FEE] + [] == [ANNUAL_FEE];
    SortsAhead(GARDEN_TOTAL, [ANNUAL_FEE]);
    SortsAhead(PATCH_TOTAL, [GARDEN_TOTAL] + [ANNUAL_FEE]);
    SortsAhead(PLOT_AREA, [PATCH_TOTAL] + ([GARDEN_TOTAL] + [ANNUAL_FEE]));
    assert FEES == [PLOT_AREA] + ([PATCH_TOTAL] + ([GARDEN_TOTAL] + [ANNUAL_FEE]));
  }

  predicate IsFee(name: string)
  {
    name in {"billable_area", "billable_area_total", "total_billable", "annual_fee"}
  }

  lemma FeeSlots(s: Slot)
    requires s in FEES
    ensures IsFee(s.propertyName) && s == FeeSlot(s.propertyName) && s.path == s.propertyName
  {
  }

  function FeeSlot(name: string): Slot
  {
    if name == "billable_area" then PLOT_AREA
    else if name == "billable_area_total" then PATCH_TOTAL
    else if name == "total_billable" then GARDEN_TOTAL
    else ANNUAL_FEE
  }

  /** A name is shown if it is an input, or the output of a known slot. */
  lemma ShownFee(known: seq<Slot>, name: string)
    requires name in NAMES && (IsFee(name) ==> FeeSlot(name) in known)
    ensures ShownName(FEES, known, name)
  {
    NamesArePlain();
    forall j | 0 <= j < |FEES| && FEES[j].propertyName == name ensures FEES[j] in known {
      FeeSlots(FEES[j]);
    }
  }

  lemma PlotReads(known: seq<Slot>)
    ensures ReadsPaths(FEES, known, PLOT_AREA)
  {
    ShownFee(known, "width_m");
    ShownFee(known, "length_m");
  }

  lemma PatchReads(known: seq<Slot>)
    requires PLOT_AREA in known
    ensures ReadsPaths(FEES, known, PATCH_TOTAL)
  {
    ShownFee(known, "plots");
    ShownFee(known, "billable_area");
  }

  lemma GardenReads(known: seq<Slot>)
    requires PATCH_TOTAL in known
    ensures ReadsPaths(FEES, known, GARDEN_TOTAL)
  {
    ShownFee(known, "patch");
    ShownFee(known, "billable_area_total");
  }

  lemma FeeReads(known: seq<Slot>)
    requires GARDEN_TOTAL in known
    ensures ReadsPaths(FEES, known, ANNUAL_FEE)
  {
    ShownFee(known, "total_billable");
    ShownFee(known, "fee_rate_per_sqm");
  }

  lemma ReadsEarlierOnes(i: nat)
    requires i < |FEES|
    ensures ReadsPaths(FEES, FEES[..i], FEES[i])
  {
    var known := FEES[..i];
    if i == 0 {
      PlotReads(known);
    } else {
      assert known[i - 1] == FEES[i - 1] && known[i - 1] in known;
      if i == 1 { PatchReads(known); }
      if i == 2 { GardenReads(known); }
      if i == 3 { FeeReads(known); }
    }
  }

  /** Every path goes over inputs and outputs of earlier slots only. */
  lemma FeesAreLayered()
    ensures Layered(FEES)
  {
    forall i | 0 <= i < |FEES|
      ensures FEES[i].propertyName !in {"@id", "@type"} && !IsSidecar(FEES[i].propertyName)
    {
      FeeSlots(FEES[i]);
      NamesArePlain();
    }
    forall i | 0 <= i < |FEES| ensures ReadsPaths(FEES, FEES[..i], FEES[i]) { ReadsEarlierOnes(i); }
    forall i, j | 0 <= i < j < |FEES| ensures SeparateOutputs(FEES[i], FEES[j]) {
      FeeSlots(FEES[i]);
      FeeSlots(FEES[j]);
    }
  }

  /** The path a source text of the profile stands for. */
  function PathOf(text: string): seq<string>
  {
    if text == "plots.billable_area" then ["plots", "billable_area"]
    else if text == "patch.billable_area_total" then ["patch", "billable_area_total"]
    else [text]
  }

  ghost predicate Standard(source: Source)
  {
    && source.path == PathOf(source.text) && '=' !in source.text
    && forall i :: 0 <= i < |source.path| ==> source.path[i] in NAMES
  }

  lemma {:induction false} SourcesStandard(slots: seq<Slot>)
    requires forall s, source :: s in slots && source in s.sources ==> Standard(source)
    ensures forall source :: source in SourcesOf(slots) ==> Standard(source)
  {
    if slots != [] { SourcesStandard(slots[1..]); }
  }

  lemma NamedStandard(name: string)
    requires '=' !in name && '.' !in name && name in NAMES
    ensures Standard(Named(name))
  {
    assert '.' in "plots.billable_area" by { assert "plots.billable_area"[5] == '.'; }
    assert '.' in "patch.billable_area_total" by { assert "patch.billable_area_total"[5] == '.'; }
  }

  lemma PlotSourcesStandard()
    ensures Standard(Named("width_m")) && Standard(Named("length_m"))
  {
    NamedStandard("width_m");
    NamedStandard("length_m");
  }

  lemma PatchSourcesStandard()
    ensures Standard(Named("plots")) && Standard(Source("plots.billable_area", ["plots", "billable_area"]))
  {
    NamedStandard("plots");
  }

  lemma GardenSourcesStandard()
    ensures Standard(Source("patch.billable_area_total", ["patch", "billable_area_total"]))
  {
  }

  lemma FeeSourcesStandard()
    ensures Standard(Named("total_billable")) && Standard(Named("fee_rate_per_sqm"))
  {
    NamedStandard("total_billable");
    NamedStandard("fee_rate_per_sqm");
  }

  lemma AllSourcesStandard(s: Slot, source: Source)
    requires s in FEES && source in s.sources
    ensures Standard(source)
  {
    if s == PLOT_AREA {
      PlotSourcesStandard();
    } else if s == PATCH_TOTAL {
      PatchSourcesStandard();
    } else if s == GARDEN_TOTAL {
      GardenSourcesStandard();
    } else {
      FeeSourcesStandard();
    }
  }

  lemma SourcesOfType(t: string)
    ensures forall source :: source in SourcesOf(SlotsOf(FEES, t)) ==> Standard(source)
  {
    forall s, source | s in SlotsOf(FEES, t) && source in s.sources ensures Standard(source) {
      SlotsOfMember(FEES, t, s);
      AllSourcesStandard(s, source);
    }
    SourcesStandard(SlotsOf(FEES, t));
  }

  lemma FeesAreListed()
    ensures Listed(FEES)
  {
    forall t: string ensures CleanSources(SourcesOf(SlotsOf(FEES, t))) { SourcesOfType(t); }
    forall s | s in FEES && s.aggregate.Some? ensures ListsColumn(s) { PatchListsColumn(s); }
  }

  lemma PatchListsColumn(s: Slot)
    requires s in FEES && s.aggregate.Some?
    ensures ListsColumn(s)
  {
    assert s == PATCH_TOTAL;
    assert ColumnPath(s.aggregate.value) == ["plots", "billable_area"] == s.sources[1].path;
    assert s.sources[1] in s.sources;
  }

  /** So reads of gardens are coherent by `PlainFormulas.PlainReadsAreCoherent`, whatever the arithmetic of the formulas. */
  lemma FeesAreCoherent()
    ensures LayeredProfile(FEES)
  {
    FeesInOrder();
    FeesAreLayered();
    FeesAreListed();
    forall s, t | s in FEES && t in FEES && SamePlace(s, t) ensures s == t {
      FeeSlots(s);
      FeeSlots(t);
    }
    forall s | s in FEES ensures s.path == s.propertyName { FeeSlots(s); }
  }

  // ----- the fixture as a whole system -----

  /** Plots belong to patches, and patches to gardens. */
  const EDGES := [Edge("Patch", "Plot", "plots"), Edge("Garden", "Patch", "patch")]

  /** The definitions of the fixture's schema, with what each property refers to (garden-fee.ts:4-41). */
  const DEFINITIONS := [
    Definition("Plot", [("@id", OtherSchema), ("width_m", OtherSchema), ("length_m", OtherSchema), ("billable_area", OtherSchema)]),
    Definition("Patch", [("@id", OtherSchema), ("plots", ArrayOf(Ref("Plot"))), ("billable_area_total", OtherSchema)]),
    Definition("Garden", [("@id", OtherSchema), ("name", OtherSchema), ("patch", Ref("Patch")),
                          ("fee_rate_per_sqm", OtherSchema), ("total_billable", OtherSchema), ("annual_fee", OtherSchema)])]

  /** The edges are those discovered in the schema. */
  lemma EdgesAreDiscovered(e: Edge)
    ensures e in EDGES <==> e in EdgesOf(DEFINITIONS)
  {
    EdgesExact(DEFINITIONS, e);
    var patch, garden := DEFINITIONS[1], DEFINITIONS[2];
    assert patch in DEFINITIONS && garden in DEFINITIONS;
    assert ArrayOf(Ref("Plot")) == Nested("Plot", 1) && Ref("Patch") == Nested("Patch", 0);
    if e == EDGES[0] {
      assert patch.properties[1] in patch.properties;
      assert DefinesEdge(patch, ("plots", ArrayOf(Ref("Plot"))), e);
    }
    if e == EDGES[1] {
      assert garden.properties[2] in garden.properties;
      assert DefinesEdge(garden, ("patch", Ref("Patch")), e);
    }
    if d, p :| d in DEFINITIONS && DefinesEdge(d, p, e) { EdgeIsListed(d, p, e); }
  }

  lemma EdgeIsListed(d: Definition, p: (string, PropertySchema), e: Edge)
    requires d in DEFINITIONS && DefinesEdge(d, p, e)
    ensures e in EDGES
  {
    DefinesIff(d, p, e);
    assert d == DEFINITIONS[0] || d == DEFINITIONS[1] || d == DEFINITIONS[2];
    assert e == EDGES[0] || e == EDGES[1];
  }

  lemma FeesAreClean()
    ensures CleanProfile(FEES)
  {
    forall t, s | s in SourcesOf(SlotsOf(FEES, t)) ensures Shapes.NamesData(s.path) {
      SourcesOfType(t);
      NamesArePlain();
    }
  }

  lemma FeesAreRegular(c: Calculator, host: Host)
    requires FlatCalculator(c) && host.maxLiveCost >= 1
    ensures Regular(FEES, PlainFormula(c), host)
  {
    FeesInOrder();
    assert Stratified(ByStratum(FEES), PlainFormula(c)) by {
      FeesAreLayered();
      PlainIsStratified(FEES, c);
    }
    FeesAreClean();
    forall s | s in FEES ensures LiveOn(s, host) && s.path == s.propertyName { FeeSlots(s); }
  }

  lemma EdgesAreUnforked(t: string)
    ensures Unforked(EDGES, t, "Garden", MAX_HOPS)
  {
    assert forall e :: e in EDGES ==> e == EDGES[0] || e == EDGES[1];
    OneParentUnforked(EDGES, t, "Garden", MAX_HOPS);
  }

  lemma EdgesAreSafe(setup: Setup, t: string)
    requires setup.edges == EDGES && setup.rootType == "Garden"
    ensures SafeType(setup, t)
  {
    EdgesAreUnforked(t);
    assert forall e :: e in EDGES ==> e == EDGES[0] || e == EDGES[1];
    assert !OwnAncestor(EDGES, "Garden");
  }

  lemma SafeParts(cfg: Config)
    requires Regular(cfg.setup.profile, cfg.f, cfg.host)
    requires cfg.setup.edges == EDGES && cfg.setup.rootType == "Garden"
    ensures Safe(cfg)
  {
    assert Targets.PlainName("Garden");
    forall t ensures SafeType(cfg.setup, t) { EdgesAreSafe(cfg.setup, t); }
  }

  /** On a host that can afford every slot, the theorems on convergence and live invalidation apply to the fixture. */
  lemma FeesAreSafe(c: Calculator, host: Host, depth: nat, canLoad: bool, dependents: Dependents, planner: Option<Planner>)
    requires FlatCalculator(c) && host.maxLiveCost >= 1
    ensures Safe(Config(PlainFormula(c), host, depth, canLoad, Setup(FEES, dependents, EDGES, "Garden", planner)))
  {
    FeesAreRegular(c, host);
    SafeParts(Config(PlainFormula(c), host, depth, canLoad, Setup(FEES, dependents, EDGES, "Garden", planner)));
  }
}
