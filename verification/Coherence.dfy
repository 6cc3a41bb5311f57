/**
 * When a read may trust recorded values: a fresh read returns what evaluating the
 * document gives, in every store any interleaving of passes can leave.
 */
module Coherence {
  import opened Strings
  import opened Json
  import opened Profiles
  import opened Fingerprints
  import opened Targets
  import opened Views
  import opened Evaluator
  import opened Roots
  import opened Statements
  import opened Warm
  import opened ReadCalcValues
  import opened Inputs

  // ----- hypotheses about a profile and its formulas -----

  /** The records of a type that occur. */
  type Domain = (string, Json) -> bool

  /** Among the records that occur, equal fingerprints imply equal slot values. */
  ghost predicate FingerprintsDetermine(profile: Profile, f: Formula, occurs: Domain)
  {
    forall s, t, x, y :: s in profile && Owns(s, t) && Occurs(occurs, t, x) && Occurs(occurs, t, y)
        && Fingerprint(profile, t, x) == Fingerprint(profile, t, y)
      ==> f(s, x) == f(s, y)
  }

  ghost predicate Occurs(occurs: Domain, typeName: string, v: Json)
  {
    occurs(typeName, v) && WellFormed(v)
  }

  ghost predicate AllOccur(occurs: Domain, targets: seq<Occurrence>)
  {
    forall o :: o in targets ==> Occurs(occurs, o.typeName, o.entity)
  }

  /** A statement path belongs to one slot of its type. */
  predicate UniquePaths(profile: Profile)
  {
    forall s, t {:trigger SamePlace(s, t)} :: s in profile && t in profile && SamePlace(s, t) ==> s == t
  }

  predicate SamePlace(s: Slot, t: Slot)
  {
    s.owner == t.owner && s.path == t.path
  }

  // ----- every recorded value is the value of its formula on some record with its fingerprint -----

  /** What justifies statements: the formulas, the records that occur, and the slots every host evaluates. */
  datatype Basis = Basis(profile: Profile, f: Formula, occurs: Domain, trusted: Profile)

  ghost predicate JustifiedBy(b: Basis, typeName: string, path: string, node: Statement, x: Json)
  {
    && Occurs(b.occurs, typeName, x) && node.fingerprint == Fingerprint(b.profile, typeName, x)
    && forall s :: s in b.trusted && Owns(s, typeName) && s.path == path ==> node.value == b.f(s, x)
  }

  ghost predicate JustifiedNode(b: Basis, typeName: string, path: string, node: Statement)
  {
    exists x :: JustifiedBy(b, typeName, path, node, x)
  }

  ghost predicate JustifiedPaths(b: Basis, typeName: string, nodes: PathStatements)
  {
    forall p, n :: p in nodes && n in nodes[p] ==> JustifiedNode(b, typeName, p, n)
  }

  ghost predicate Justified(b: Basis, store: Statements)
  {
    forall key :: key in store ==> JustifiedPaths(b, key.typeName, store[key])
  }

  ghost predicate JustifiedJob(b: Basis, job: Job)
  {
    forall w :: w in job.writes ==> JustifiedNode(b, job.key.typeName, w.path, w.statement)
  }

  lemma {:induction false} RecordJustified(b: Basis, typeName: string, nodes: PathStatements, writes: seq<Write>)
    requires JustifiedPaths(b, typeName, nodes)
    requires forall w :: w in writes ==> JustifiedNode(b, typeName, w.path, w.statement)
    ensures JustifiedPaths(b, typeName, Record(nodes, writes))
  {
    if writes != [] {
      var n := |writes| - 1;
      RecordJustified(b, typeName, nodes, writes[..n]);
      assert writes[n] in writes;
      WriteJustified(b, typeName, Record(nodes, writes[..n]), writes[n]);
    }
  }

  lemma {:induction false} WriteJustified(b: Basis, typeName: string, nodes: PathStatements, w: Write)
    requires JustifiedPaths(b, typeName, nodes) && JustifiedNode(b, typeName, w.path, w.statement)
    ensures JustifiedPaths(b, typeName, nodes[w.path := (if w.path in nodes then nodes[w.path] else []) + [w.statement]])
  {
  }

  lemma RunJobJustified(b: Basis, t: Tally, job: Job, skipFresh: bool)
    requires Justified(b, t.store) && JustifiedJob(b, job)
    ensures Justified(b, RunJob(t, job, skipFresh).store)
  {
    var nodes := if job.key in t.store then t.store[job.key] else map[];
    RecordJustified(b, job.key.typeName, nodes, job.writes);
  }

  ghost predicate Grounded(b: Basis)
  {
    UniquePaths(b.profile) && forall s :: s in b.trusted ==> s in b.profile
  }

  lemma LiveMember(profile: Profile, host: Host, slot: Slot)
    ensures slot in LiveSlots(profile, host) <==> slot in profile && LiveOn(slot, host)
  {
    if profile != [] {
      assert profile == [profile[0]] + profile[1..];
      LiveMember(profile[1..], host, slot);
    }
  }

  /** Targets of a document satisfy the equations of the slots that were evaluated on it. */
  lemma TargetSolved(profile: Profile, f: Formula, host: Host, doc: Json, o: Occurrence, slot: Slot)
    requires Stratified(ByStratum(LiveSlots(profile, host)), f) && slot in profile && LiveOn(slot, host)
    requires o in CalcTargets(Evaluate(LiveSlots(profile, host), f, doc), profile) && Owns(slot, o.typeName)
    ensures o.entity.Obj? && Lookup(o.entity.fields, slot.propertyName) == f(slot, o.entity)
  {
    var live := LiveSlots(profile, host);
    var e := Evaluate(live, f, doc);
    LiveMember(profile, host, slot);
    SameMembers(ByStratum(live), live);
    EvaluateSolves(ByStratum(live), f, doc);
    TargetIsNode(e, profile, o);
    SolvesBelow(slot, f, e, [], o);
  }

  /** A pass over a document on a host that evaluates the trusted slots, whose targets all occur. */
  ghost predicate Observes(b: Basis, host: Host, doc: Json)
  {
    && Stratified(ByStratum(LiveSlots(b.profile, host)), b.f) && (forall s :: s in b.trusted ==> LiveOn(s, host))
    && AllOccur(b.occurs, CalcTargets(Evaluate(LiveSlots(b.profile, host), b.f, doc), b.profile))
  }

  lemma EvaluatedJobJustified(b: Basis, host: Host, doc: Json, o: Occurrence)
    requires Grounded(b) && Observes(b, host, doc)
    requires o in CalcTargets(Evaluate(LiveSlots(b.profile, host), b.f, doc), b.profile)
    ensures o.entity.Obj? && JustifiedJob(b, JobOf(b.profile, o))
  {
    TargetIsNode(Evaluate(LiveSlots(b.profile, host), b.f, doc), b.profile, o);
    var job := JobOf(b.profile, o);
    forall w | w in job.writes ensures JustifiedNode(b, job.key.typeName, w.path, w.statement) {
      var s := PlannedSlot(b.profile, o, w);
      forall t | t in b.trusted && Owns(t, o.typeName) && t.path == w.path ensures w.statement.value == b.f(t, o.entity) {
        assert SamePlace(t, s);
        TargetSolved(b.profile, b.f, host, doc, o, t);
      }
      assert JustifiedBy(b, o.typeName, w.path, w.statement, o.entity);
    }
  }

  /** The slot a write was planned for. */
  lemma PlannedSlot(profile: Profile, o: Occurrence, w: Write) returns (s: Slot)
    requires o.entity.Obj? && w in JobOf(profile, o).writes
    ensures s in profile && Owns(s, o.typeName) && s.path == w.path
    ensures w.statement.value == Lookup(o.entity.fields, s.propertyName)
    ensures w.statement.fingerprint == Fingerprint(profile, o.typeName, o.entity)
  {
    WritesFingerprint(PlanSlots(profile, o.typeName), o.entity, JobOf(profile, o).fingerprint, w);
    s :| s in PlanSlots(profile, o.typeName) && s.path == w.path
         && w.statement.value == Lookup(o.entity.fields, s.propertyName);
    SameMembers(PlanSlots(profile, o.typeName), SlotsOf(profile, o.typeName));
    SlotsOfMember(profile, o.typeName, s);
  }

  // ----- reachable stores -----

  /** One target of some evaluated document is processed; documents and hosts may differ from step to step. */
  datatype Step = Step(doc: Json, host: Host, index: nat, skipFresh: bool)

  function Apply(profile: Profile, f: Formula, store: Statements, step: Step): Statements
  {
    var e := Evaluate(LiveSlots(profile, step.host), f, step.doc);
    if step.index < |JobsOf(profile, e)| then
      RunJob(Tally(store, 0, 0, 0, []), JobsOf(profile, e)[step.index], step.skipFresh).store
    else store
  }

  function After(profile: Profile, f: Formula, steps: seq<Step>): Statements
  {
    if steps == [] then map[]
    else Apply(profile, f, After(profile, f, steps[..|steps| - 1]), steps[|steps| - 1])
  }

  /**
   * Edits, passes, aborted passes and overlapping passes, on whatever hosts, leave the
   * statements of every slot that all those hosts evaluate justified.
   */
  lemma {:induction false} ReachableIsJustified(b: Basis, steps: seq<Step>)
    requires Grounded(b) && forall k :: 0 <= k < |steps| ==> Observes(b, steps[k].host, steps[k].doc)
    ensures Justified(b, After(b.profile, b.f, steps))
  {
    if steps != [] {
      var n := |steps| - 1;
      ReachableIsJustified(b, steps[..n]);
      ApplyJustified(b, After(b.profile, b.f, steps[..n]), steps[n]);
    }
  }

  lemma ApplyJustified(b: Basis, store: Statements, step: Step)
    requires Grounded(b) && Observes(b, step.host, step.doc) && Justified(b, store)
    ensures Justified(b, Apply(b.profile, b.f, store, step))
  {
    var e := Evaluate(LiveSlots(b.profile, step.host), b.f, step.doc);
    if step.index < |JobsOf(b.profile, e)| {
      TargetsAreRecords(b.profile, e);
      var o := CalcTargets(e, b.profile)[step.index];
      assert o in CalcTargets(e, b.profile);
      EvaluatedJobJustified(b, step.host, step.doc, o);
      RunJobJustified(b, Tally(store, 0, 0, 0, []), JobOf(b.profile, o), step.skipFresh);
    }
  }

  // ----- a fresh read equals evaluation -----

  lemma {:induction false} TargetFreshAt(store: Statements, profile: Profile, targets: seq<Occurrence>, o: Occurrence)
    requires EverySlotFresh(store, profile, targets) && o in targets
    ensures TargetFresh(store, profile, o)
  {
    var n := |targets| - 1;
    assert targets == targets[..n] + [targets[n]];
    if o in targets[..n] {
      TargetFreshAt(store, profile, targets[..n], o);
    }
  }

  lemma {:induction false} SlotFreshAt(
      store: Statements, o: Occurrence, slots: seq<Slot>, fingerprint: string, slot: Slot)
    requires SlotsFresh(store, o, slots, fingerprint) && slot in slots
    ensures Fresh(Nodes(store, o, slot), fingerprint)
  {
    var n := |slots| - 1;
    assert slots == slots[..n] + [slots[n]];
    if slot in slots[..n] {
      SlotFreshAt(store, o, slots[..n], fingerprint, slot);
    }
  }

  lemma FreshSlot(store: Statements, profile: Profile, targets: seq<Occurrence>, o: Occurrence, slot: Slot)
    requires EverySlotFresh(store, profile, targets) && o in targets && slot in profile && Owns(slot, o.typeName)
    ensures Fresh(Nodes(store, o, slot), Fingerprint(profile, o.typeName, o.entity))
  {
    TargetFreshAt(store, profile, targets, o);
    SlotsOfMember(profile, o.typeName, slot);
    SlotFreshAt(store, o, SlotsOf(profile, o.typeName), Fingerprint(profile, o.typeName, o.entity), slot);
  }

  /** The current value of a fresh, trusted slot is its formula's value on the entity at hand. */
  lemma {:induction false} FreshValue(b: Basis, store: Statements, targets: seq<Occurrence>, o: Occurrence, slot: Slot)
    requires EverySlotFresh(store, b.profile, targets) && o in targets && Owns(slot, o.typeName)
    requires Grounded(b) && slot in b.trusted && Justified(b, store) && PathsAreNames(b.profile)
    requires FingerprintsDetermine(b.profile, b.f, b.occurs) && Occurs(b.occurs, o.typeName, o.entity)
    ensures Nodes(store, o, slot) != []
    ensures Nodes(store, o, slot)[|Nodes(store, o, slot)| - 1].value == b.f(slot, o.entity)
  {
    FreshSlot(store, b.profile, targets, o, slot);
    NodesJustified(b, store, o, slot);
    ValueOfFresh(b, o.typeName, slot, Nodes(store, o, slot), o.entity);
  }

  lemma {:induction false} ValueOfFresh(b: Basis, typeName: string, slot: Slot, nodes: seq<Statement>, entity: Json)
    requires Fresh(nodes, Fingerprint(b.profile, typeName, entity)) && Grounded(b)
    requires forall n :: n in nodes ==> JustifiedNode(b, typeName, slot.path, n)
    requires FingerprintsDetermine(b.profile, b.f, b.occurs) && slot in b.trusted && Owns(slot, typeName)
    requires Occurs(b.occurs, typeName, entity)
    ensures nodes != [] && nodes[|nodes| - 1].value == b.f(slot, entity)
  {
    JustifiedValue(b, typeName, slot, nodes[|nodes| - 1], entity);
  }

  lemma NodesJustified(b: Basis, store: Statements, o: Occurrence, slot: Slot)
    requires Justified(b, store) && PathsAreNames(b.profile) && slot in b.profile
    ensures forall n :: n in Nodes(store, o, slot) ==> JustifiedNode(b, o.typeName, slot.path, n)
  {
    var key := Key(o.typeName, o.iri);
    if key in store {
      assert JustifiedPaths(b, key.typeName, store[key]);
    }
  }

  lemma JustifiedValue(b: Basis, typeName: string, slot: Slot, node: Statement, entity: Json)
    requires JustifiedNode(b, typeName, slot.path, node) && FingerprintsDetermine(b.profile, b.f, b.occurs)
    requires Grounded(b) && slot in b.trusted && Owns(slot, typeName) && Occurs(b.occurs, typeName, entity)
    requires node.fingerprint == Fingerprint(b.profile, typeName, entity)
    ensures node.value == b.f(slot, entity)
  {
    var x :| JustifiedBy(b, typeName, slot.path, node, x);
    assert b.f(slot, x) == b.f(slot, entity);
  }

  /** The document already carries the recorded values: the store asserts both. */
  ghost predicate DualAsserted(store: Statements, profile: Profile, targets: seq<Occurrence>)
  {
    forall o, s :: o in targets && s in profile && Owns(s, o.typeName) ==>
      o.entity.Obj? && HasKey(o.entity.fields, s.propertyName) &&
      (Nodes(store, o, s) != [] ==>
         Lookup(o.entity.fields, s.propertyName) == Nodes(store, o, s)[|Nodes(store, o, s)| - 1].value)
  }

  function EntitiesOf(targets: seq<Occurrence>): set<Json>
  {
    set o | o in targets :: o.entity
  }

  /** Every record with computed properties is a target. */
  ghost predicate EveryRecordIsTarget(profile: Profile, doc: Json)
  {
    forall s :: s in profile ==> MatchesAmong(EntitiesOf(CalcTargets(doc, profile)), s, doc)
  }

  lemma {:induction false} SetAllSame(fields: seq<Field>, store: Statements, o: Occurrence, slots: seq<Slot>)
    requires forall s :: s in slots && Nodes(store, o, s) != [] ==>
      HasKey(fields, s.propertyName) &&
      Lookup(fields, s.propertyName) == Nodes(store, o, s)[|Nodes(store, o, s)| - 1].value
    ensures SetAll(fields, store, o, slots) == fields
  {
    if slots != [] {
      var n := |slots| - 1;
      assert slots == slots[..n] + [slots[n]];
      SetAllSame(fields, store, o, slots[..n]);
      if Nodes(store, o, slots[n]) != [] {
        SetFieldSame(fields, slots[n].propertyName, Nodes(store, o, slots[n])[|Nodes(store, o, slots[n])| - 1].value);
      }
    }
  }

  lemma {:induction false} PatchSame(v: Json, at: seq<nat>, store: Statements, o: Occurrence, slots: seq<Slot>)
    requires NodeAt(v, at).Obj? ==> SetAll(NodeAt(v, at).fields, store, o, slots) == NodeAt(v, at).fields
    ensures Patch(v, at, store, o, slots) == v
    decreases |at|
  {
    if at != [] && at[0] < |Children(v)| {
      PatchSame(Children(v)[at[0]], at[1..], store, o, slots);
      match v
      case Arr(items) => assert items[at[0] := items[at[0]]] == items;
      case Obj(fields) =>
        assert Field(fields[at[0]].key, fields[at[0]].value) == fields[at[0]];
        assert fields[at[0] := fields[at[0]]] == fields;
      case _ =>
    }
  }

  lemma {:induction false} SplicedSame(
      doc: Json, store: Statements, profile: Profile, targets: seq<Occurrence>)
    requires DualAsserted(store, profile, targets)
    requires forall o :: o in targets ==> o.entity == NodeAt(doc, o.at)
    ensures Spliced(doc, store, profile, targets) == doc
  {
    if targets != [] {
      var n := |targets| - 1;
      assert targets == targets[..n] + [targets[n]];
      SplicedSame(doc, store, profile, targets[..n]);
      var o := targets[n];
      assert o in targets;
      var slots := SlotsOf(profile, o.typeName);
      if NodeAt(doc, o.at).Obj? {
        forall s | s in slots && Nodes(store, o, s) != []
          ensures HasKey(o.entity.fields, s.propertyName)
          ensures Lookup(o.entity.fields, s.propertyName) == Nodes(store, o, s)[|Nodes(store, o, s)| - 1].value
        {
          SlotsOfMember(profile, o.typeName, s);
        }
        SetAllSame(o.entity.fields, store, o, slots);
      }
      PatchSame(doc, o.at, store, o, slots);
    }
  }

  lemma FreshDocSolves(b: Basis, store: Statements, doc: Json, slot: Slot)
    requires Grounded(b) && slot in b.trusted && Justified(b, store) && PathsAreNames(b.profile)
    requires FingerprintsDetermine(b.profile, b.f, b.occurs) && AllOccur(b.occurs, CalcTargets(doc, b.profile))
    requires EveryRecordIsTarget(b.profile, doc) && DualAsserted(store, b.profile, CalcTargets(doc, b.profile))
    requires EverySlotFresh(store, b.profile, CalcTargets(doc, b.profile))
    ensures Solves(slot, b.f, doc)
  {
    var targets := CalcTargets(doc, b.profile);
    forall r | r in EntitiesOf(targets) ensures Equation(slot, b.f, r) {
      var o :| o in targets && o.entity == r;
      TargetIsNode(doc, b.profile, o);
      if Matches(slot, r) {
        assert Owns(slot, o.typeName);
        FreshValue(b, store, targets, o, slot);
      }
    }
    SolvesFromRecords(EntitiesOf(targets), slot, b.f, doc);
  }

  /**
   * Coherence: when every slot is trusted and the document carries the recorded values, a
   * fresh read returns, on every host, exactly what evaluating the same document gives,
   * although it evaluates nothing.
   */
  lemma {:induction false} FreshReadIsEvaluation(b: Basis, host: Host, store: Statements, doc: Json)
    requires Grounded(b) && b.trusted == b.profile && Justified(b, store) && PathsAreNames(b.profile)
    requires FingerprintsDetermine(b.profile, b.f, b.occurs) && AllOccur(b.occurs, CalcTargets(doc, b.profile))
    requires EveryRecordIsTarget(b.profile, doc) && DualAsserted(store, b.profile, CalcTargets(doc, b.profile))
    requires Verdict(store, b.profile, CalcTargets(doc, b.profile)) == FreshState
    ensures ReadData(store, b.profile, b.f, host, doc) == Evaluate(LiveSlots(b.profile, host), b.f, doc)
         == Evaluate(b.profile, b.f, doc)
  {
    var targets := CalcTargets(doc, b.profile);
    forall o | o in targets ensures o.entity == NodeAt(doc, o.at) { TargetIsNode(doc, b.profile, o); }
    SplicedSame(doc, store, b.profile, targets);
    forall s | s in b.profile ensures Solves(s, b.f, doc) { FreshDocSolves(b, store, doc, s); }
    EvaluateFixed(b.profile, b.f, doc, b.profile);
    forall s | s in LiveSlots(b.profile, host) ensures s in b.profile { LiveMember(b.profile, host, s); }
    EvaluateFixed(LiveSlots(b.profile, host), b.f, doc, b.profile);
  }

  lemma EvaluateFixed(slots: Profile, f: Formula, doc: Json, profile: Profile)
    requires forall s :: s in slots ==> s in profile
    requires forall s :: s in profile ==> Solves(s, f, doc)
    ensures Evaluate(slots, f, doc) == doc
  {
    SameMembers(ByStratum(slots), slots);
    EvaluateSolved(ByStratum(slots), f, doc);
  }

  /** The same for every store a history of passes and edits can reach from an empty one. */
  lemma {:induction false} ReachableReadIsCoherent(b: Basis, host: Host, steps: seq<Step>, doc: Json)
    requires Grounded(b) && b.trusted == b.profile && PathsAreNames(b.profile)
    requires forall k :: 0 <= k < |steps| ==> Observes(b, steps[k].host, steps[k].doc)
    requires FingerprintsDetermine(b.profile, b.f, b.occurs) && AllOccur(b.occurs, CalcTargets(doc, b.profile))
    requires EveryRecordIsTarget(b.profile, doc)
    requires DualAsserted(After(b.profile, b.f, steps), b.profile, CalcTargets(doc, b.profile))
    requires Verdict(After(b.profile, b.f, steps), b.profile, CalcTargets(doc, b.profile)) == FreshState
    ensures ReadData(After(b.profile, b.f, steps), b.profile, b.f, host, doc) == Evaluate(b.profile, b.f, doc)
  {
    ReachableIsJustified(b, steps);
    FreshReadIsEvaluation(b, host, After(b.profile, b.f, steps), doc);
  }

  /** The target of the evaluated document at the same position: the slot's value there is that of the target read. */
  lemma {:induction false} EvaluatedTarget(profile: Profile, f: Formula, doc: Json, unread: seq<Slot>, k: nat, slot: Slot)
    returns (p: Occurrence)
    requires Readable(profile, f, doc, unread) && k < |CalcTargets(doc, profile)|
    requires slot in profile && Owns(slot, CalcTargets(doc, profile)[k].typeName)
    ensures var e := Evaluate(profile, f, doc);
      && k < |CalcTargets(e, profile)| && p == CalcTargets(e, profile)[k] && p.entity.Obj?
      && Lookup(p.entity.fields, slot.propertyName) == f(slot, CalcTargets(doc, profile)[k].entity)
  {
    var e := Evaluate(profile, f, doc);
    EvaluatedInputsAlike(profile, f, doc, unread);
    TargetsView(unread, [], profile, doc, e);
    p := CalcTargets(e, profile)[k];
    TargetIsNode(e, profile, p);
    EvaluatedValue(profile, f, doc, p, slot);
    assert SameView(unread, [], CalcTargets(doc, profile)[k].entity, p.entity);
  }

  /**
   * Value by value, for any document read, with or without recorded values in it: what a
   * fresh read splices on for a trusted slot of a target is what evaluation puts on that target.
   */
  lemma {:induction false} FreshValueIsEvaluated(
      b: Basis, store: Statements, doc: Json, unread: seq<Slot>, k: nat, slot: Slot)
    requires Grounded(b) && Justified(b, store) && PathsAreNames(b.profile)
    requires FingerprintsDetermine(b.profile, b.f, b.occurs) && AllOccur(b.occurs, CalcTargets(doc, b.profile))
    requires Readable(b.profile, b.f, doc, unread) && EverySlotFresh(store, b.profile, CalcTargets(doc, b.profile))
    requires k < |CalcTargets(doc, b.profile)| && slot in b.trusted && Owns(slot, CalcTargets(doc, b.profile)[k].typeName)
    ensures var nodes, e := Nodes(store, CalcTargets(doc, b.profile)[k], slot), Evaluate(b.profile, b.f, doc);
      && k < |CalcTargets(e, b.profile)| && CalcTargets(e, b.profile)[k].entity.Obj? && nodes != []
      && nodes[|nodes| - 1].value == Lookup(CalcTargets(e, b.profile)[k].entity.fields, slot.propertyName)
  {
    var o := CalcTargets(doc, b.profile)[k];
    var p := EvaluatedTarget(b.profile, b.f, doc, unread, k, slot);
    FreshValue(b, store, CalcTargets(doc, b.profile), o, slot);
  }

  /** A document whose evaluation keeps the fingerprints of its targets. */
  ghost predicate Readable(profile: Profile, f: Formula, doc: Json, unread: seq<Slot>)
  {
    && Stratified(ByStratum(profile), f) && WellFormed(doc) && Tidy(ByStratum(profile), doc)
    && InputsCurrent(profile, f, doc, unread)
  }

  /** Every record of an evaluated document carries the values of its slots. */
  lemma {:induction false} EvaluatedValue(profile: Profile, f: Formula, doc: Json, p: Occurrence, slot: Slot)
    requires Stratified(ByStratum(profile), f) && p in Entities(Evaluate(profile, f, doc), [])
    requires slot in profile && Owns(slot, p.typeName)
    ensures p.entity.Obj? && HasKey(p.entity.fields, slot.propertyName)
    ensures Lookup(p.entity.fields, slot.propertyName) == f(slot, p.entity)
  {
    var e := Evaluate(profile, f, doc);
    SameMembers(ByStratum(profile), profile);
    EvaluateSolves(ByStratum(profile), f, doc);
    EntitiesAt(e, [], p);
    SolvesBelow(slot, f, e, [], p);
  }
}
