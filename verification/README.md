# Verification of the calc engine

A Dafny model of the materialized-value cache with live invalidation in
`packages/calc-engine`, and of three smaller parts of the repository: the IRI codec, the
worker protocol of `async-oxigraph`, and the JSON-LD filter. `dafny verify dfyconfig.toml`
checks everything.

## The calc engine

A *profile* is a list of computed properties (slots) with the source paths they read. A
*warm* pass reads the documents of some roots, evaluates the profile, picks one record per
IRI, fingerprints the record's inputs, skips the records whose statements are fresh, and
writes the rest. Every write emits a change event to the subscription that started the
pass. A *read* uses the stored values when every one of them is fresh and evaluates
otherwise.

| files | what they model |
|---|---|
| `Strings`, `Json`, `JsonText` | sorting, JSON trees, and the text of strings, integers and joined lists |
| `Canonical`, `Fingerprints`, `Walks`, `Owners`, `Shapes` | `stableJson` and `fingerprintForEntity`: what they tell apart and what they ignore |
| `Profiles`, `Targets`, `Collected`, `Roots` | profiles, target selection, reading of root documents |
| `Views`, `Evaluator`, `Addresses`, `Inputs` | evaluation of a tree: what it reads, what it changes, and what it leaves in place |
| `Statements`, `DualAssertion`, `Warm` | statements, the documents a write changes, and the pass over documents |
| `ReadCalcValues`, `Reported`, `Coherence`, `FreshReads`, `CopiesRead` | the cached read, and when it agrees with evaluation, value by value and document by document |
| `WarmThenRead`, `SkippingPasses`, `WarmedReads` | what a read serves after a pass, with skipping, and from the documents the pass has written |
| `PlainFormulas`, `FingerprintLimits`, `Pushdown`, `GardenFees`, `Hosts` | formulas over source paths, which of them fingerprints determine, aggregates, the garden fee profile, and partial hosts |
| `Climb`, `ClimbLimits`, `ClimbCoverage` | the climb to affected roots: what it returns, when it is exact, and when it misses nothing |
| `Scheduler`, `Invalidation` | from a change event to a running or queued warm |
| `Engine`, `References`, `CalcSystem` | all of it as one step machine, first over any parts, then over the real ones |
| `Startup`, `LostEdit` | the start of a worker: the sweep before the subscription, and an edit that is lost between them |

The formula of a slot is a parameter `f(slot, record)`. Theorems assume that it reads no
output of its own slot or of a later one, stated over *views*: what is left of a document
without sidecars and without outputs that are not known yet. `PlainFormulas` derives this
from the paths of a profile. Stores and native aggregates are parameters too. Documents are
trees; a record is identified by its address in the tree. A write changes the documents as
well as the statements: every run after it reads records that carry the written values. A
write for a root that is not there creates it, with its outputs and nothing else.

A root *depends* on an entity if references lead from the root down to it, through other
roots as well. An edit changes a root's jobs only if its document shows the edited entity.

Results that qualify what the code or its documentation suggests:

- A worker sweeps first and subscribes when the sweep is done. An edit in between reaches no
  listener, and if the sweep has read the root already, the root stays stale until something
  else touches it. From the subscription on a worker is fresh whenever it rests, in every
  schedule, if and only if every root is fresh at that moment. It is when every root's
  document still shows what it showed to the sweep.
- A run that was planned before a removal writes the removed root's outputs after it, and so
  creates the root again. Its echo leads to a run over the new document.
- Convergence needs `loadStatements`, and roots whose copies of one entity agree. Without
  the first a triggered engine never comes to rest; the second is exact: second passes over
  some jobs are silent from every store if and only if those that write agree.
- After a pass that may skip, a read is fresh if and only if no target was skipped while
  one of its slots had no statement: the pass looks at recorded statements only, the read
  asks for all of them.
- A pass plans writes for every slot but evaluates the live ones only. On a host that
  cannot evaluate a slot it stores the old value of the document under the fingerprint of
  the new inputs, and reads call it fresh. Evaluation is complete on a host exactly when
  the host can evaluate every slot.
- A statement is written under the slot's dot path and looked up under its property name.
  Theorems about reads assume that the two are the same.
- A fingerprint does not tell a string from a record with that id, nor a number from an array
  that holds it, so it does not determine every formula on every record. For formulas over
  named properties it does if and only if records with one fingerprint have scalars at the
  same source paths; for aggregates, columns of numbers suffice. The coherence theorems ask
  for it on the records that occur, and `GardenFees` meets their conditions.
- Upserts of a type that owns no slot and is no direct child of the root are dropped.
- A climb stops at the first root it meets, and the upsert of a root warms that root alone. A
  root type that is its own ancestor, such as `Place` with `Place.partOf`, has roots that
  depend on roots, and those are not warmed: the upsert of a place leaves out the place that
  is part of it and reads its name.
- The climb is exact on every store if and only if the root is no ancestor type at all, or a
  single line of parent types leads to it within the hops and it is not its own ancestor.
- Upserts of a type are covered on every store if and only if the root is no ancestor of the
  type, or the type owns a slot or is a direct child of the root, the root type is not its own
  ancestor or out of reach of the climb, and the schema has no *fork*: a type on the way with
  two parent types that both lead to the root, where the one the climb goes on with does so
  within the hops that remain.
  Without a planner a full sweep covers everything but the upsert of a root. A full sweep is
  requested otherwise only when the climb finds nothing, so at a fork a warm is lost. With
  `City.place`, `Region.places` and `City.region`, the upsert of a place warms the city that
  names it, and not the city of its region.
- A fresh read sets values on targets only. It shows what evaluation gives if and only if the
  other records of owning types, second copies and stubs, carry their values already.
- An empty `rootIRIs` means every root to a run, and nothing to the merge of a targeted
  queue. The handler never requests one.
- The comment of `evaluateForRoots` calls the query count independent of the row count.
  That holds for shallow reads; a deep read adds one `loadOne` per root.
- The comment of `climbAffectedRoots` bounds the query count by the graph depth. The bound
  proved is `maxHops` times the number of relation edges.

## The smaller parts

- `Utf8`, `Base64`, `IriCodec`: UTF-8 (section 3 of RFC 3629), its decoder (the WHATWG
  Encoding Standard), base64 (sections 4 and 5 of RFC 4648) and the forgiving decoder of
  the WHATWG Infra Standard, all written out. An IRI that starts with U+FEFF loses that
  character; all others round-trip.
- `OxigraphWorker`, `OxigraphClient`, `OxigraphProtocol`: handlers that give way at each
  `await`, calls with timers, and every interleaving of them. Each call hears every reply,
  so two calls that draw the same task id can resolve with each other's reply.
- `FilterJsonLd`: the recursion over a graph of objects. An object met again is returned
  as it is, so its "@" keys stay.

## Model

| member | source | states |
|---|---|---|
| Canonical.TextIsToken | packages/calc-engine/src/warm.ts:108-130 | every text of `stableJson` is a self-delimiting literal, so texts side by side can be told apart |
| Canonical.EqualTextsEqualValues | packages/calc-engine/src/warm.ts:108-130 | equal texts denote equal values: arrays as bags, records as maps without sidecar keys, identified records as their id |
| Canonical.EqualValuesEqualTexts | packages/calc-engine/src/warm.ts:108-130 | the text depends on the denoted value only |
| Canonical.StableJsonDecides | packages/calc-engine/src/warm.ts:108-130 | texts followed by anything that ends a literal agree if and only if the values and the remainders do |
| Canonical.RecordsCompared | packages/calc-engine/src/warm.ts:119-129 | records with a non-empty id are compared by id, any others by their fields but those whose names end with `$stmt` |
| Canonical.ArraysCompared | packages/calc-engine/src/warm.ts:113-118 | arrays are compared by the texts of their items, each as often as it occurs |
| Canonical.ScalarsCompared | packages/calc-engine/src/warm.ts:108-112 | other values have texts of their own |
| JsonText.JoinSplit | packages/calc-engine/src/warm.ts:114-129 | a comma-separated list of literals up to its closing bracket determines its members and the rest |
| JsonText.UnescapeEscape | packages/calc-engine/src/warm.ts:108-112 | the text of a string is one that JSON parsers read as that string |
| JsonText.DigitsStandFor | packages/calc-engine/src/warm.ts:108-112 | integers are written in decimal digits that stand for them, without a leading zero |
| Strings.LexIff | packages/calc-engine/src/warm.ts:113-129 | the order of texts: a prefix first, otherwise by the first character that differs |
| Fingerprints.CollectPathValues | packages/calc-engine/src/warm.ts:62-106 | the visitor with its two flags returns the values along a path, whether an array was met, and whether a source is present |
| Walks.ValuesOwned | packages/calc-engine/src/warm.ts:62-106 | the values of a path are those at which walks along it end, from a record to a field and from an array to each item, each owned by the last identified record on the way |
| Walks.ArrayMetIff | packages/calc-engine/src/warm.ts:62-106 | the list flag is set if and only if some walk meets an array |
| Walks.PresentIff | packages/calc-engine/src/warm.ts:62-106 | a source is present if and only if a walk along its path meets a defined value at its end or an empty array on the way |
| Fingerprints.FingerprintForEntity | packages/calc-engine/src/warm.ts:161-174 | the loop over slots and sources builds the sorted, joined fingerprint |
| Fingerprints.FingerprintDecides | packages/calc-engine/src/warm.ts:132-174 | with source texts free of `=`, fingerprints are equal if and only if they agree source by source: both joins can be undone |
| Fingerprints.FingerprintFaithful | packages/calc-engine/src/warm.ts:108-174 | equal fingerprints give, on every source path, equal bags of denoted values and the same list form |
| Owners.OwnersTell | packages/calc-engine/src/warm.ts:132-159 | when the same owners have one value each, equal fingerprints give equal values owner by owner |
| Owners.TextsInOwnerOrder | packages/calc-engine/src/warm.ts:143-153 | the texts of a list stand in the order of the owners' ids |
| Owners.ExchangeTells | packages/calc-engine/src/warm.ts:132-159 | exchanging two different values between two records of a list changes the fingerprint |
| Shapes.ShapeIgnoresArrayOrder | packages/calc-engine/src/warm.ts:113-118 | permuting an array keeps the shape of a document |
| Shapes.ShapeIgnoresKeyOrderAndSidecars | packages/calc-engine/src/warm.ts:124-126 | reordering keys, and adding or removing `$stmt` keys, keeps the shape |
| Shapes.ShapeCongruence | packages/calc-engine/src/warm.ts:108-130 | the same below any item or field: rearrangements at any depth keep the shape |
| Shapes.FingerprintStable | packages/calc-engine/src/warm.ts:62-174 | documents of one shape have one fingerprint, for source paths that name no sidecar |
| Shapes.SlotOrderIgnored | packages/calc-engine/src/warm.ts:161-174 | the order in which a profile lists its slots does not reach a fingerprint |
| Targets.EntityCollector.Visit | packages/calc-engine/src/warm.ts:190-206 | the recursive visitor appends the typed, identified records of a tree, depth first |
| Targets.CollectEntities | packages/calc-engine/src/warm.ts:186-209 | all of them, parents before children |
| Collected.EntitiesExact | packages/calc-engine/src/warm.ts:186-209 | collected are the records with a type and a non-empty id at their addresses, arrays and records all the way down, and nothing else |
| Collected.CollectedInOrder | packages/calc-engine/src/warm.ts:186-209 | in document order, parents before what is inside them |
| Collected.TypeIsLocalName | packages/formula-runtime/src/evaluateCompiledProfile.ts:151-160 | the type of a record is the part of its `@type` after the last `#`, else after the last `/`, else all of it |
| Targets.PresentSourceCount | packages/calc-engine/src/warm.ts:211-237 | the two loops with their skip over own outputs compute the count of the next row |
| Targets.PresentIsCount | packages/calc-engine/src/warm.ts:211-237 | the count is the number of positions in the sources of the type's slots at which a source names no output of the type and a walk along its path meets a value or an empty array |
| Targets.CollectCalcTargets | packages/calc-engine/src/warm.ts:243-279 | the loop over a map of targets computes the selection of the lemmas below |
| Targets.TargetsSelected | packages/calc-engine/src/warm.ts:243-279 | every IRI at most once, and exactly the root or the first occurrence with the most present sources |
| Targets.RootIsTarget | packages/calc-engine/src/warm.ts:258-259 | a typed and identified root is always a target |
| Targets.IriIsTarget | packages/calc-engine/src/warm.ts:252-271 | an IRI is a target if and only if some occurrence of it is the root or has a source that is no own output and that a walk meets in the record |
| Targets.StubIsNoTarget | packages/calc-engine/src/warm.ts:211-259 | a record below the root with nothing but `@id` and `@type` is no target |
| Targets.TargetIsNode | packages/calc-engine/src/warm.ts:186-209 | every target is the record at its address, with the type and id it claims |
| Views.EntitiesSeen | packages/calc-engine/src/warm.ts:186-209 | collecting the entities of a document depends on its view only: outputs and sidecars add none |
| Views.FingerprintView | packages/calc-engine/src/warm.ts:132-174 | records of one view have one fingerprint, when the view shows all that the sources read |
| Views.TargetsView | packages/calc-engine/src/warm.ts:243-279 | documents of one view select the same targets, in the same order |
| Evaluator.EvaluateSolves | packages/formula-runtime/src/evaluateCompiledProfile.ts:141-225 | after evaluation every record of an owning type satisfies every slot equation |
| Evaluator.EvaluateSolved | packages/formula-runtime/src/evaluateCompiledProfile.ts:162-225 | a document that satisfies all equations evaluates to itself |
| Evaluator.EvaluateIdempotent | packages/formula-runtime/src/evaluateCompiledProfile.ts:199-225 | evaluating twice is evaluating once: earlier outputs are ignored |
| Evaluator.EvaluateView | packages/formula-runtime/src/evaluateCompiledProfile.ts:141-225 | documents that differ in outputs and sidecars alone evaluate to documents that differ in sidecars and key order alone |
| Evaluator.EvaluateUnseen | packages/formula-runtime/src/evaluateCompiledProfile.ts:199-225 | evaluation sets outputs and changes nothing else |
| Evaluator.OnlyOwnersComputed | packages/formula-runtime/src/evaluateCompiledProfile.ts:168-197 | a record without the owning type keeps its fields, whatever is computed inside them |
| Evaluator.StrataInOrder | packages/formula-runtime/src/evaluateCompiledProfile.ts:141-145 | slots are applied from the lowest stratum up, those of one stratum in profile order |
| Addresses.AddressesKept | packages/formula-runtime/src/evaluateCompiledProfile.ts:199-225 | documents that overwrite outputs only, as evaluation and splicing do, keep every entity at its address |
| Inputs.EvaluationKeepsTargets | packages/calc-engine/src/warm.ts:351-361 | when the outputs that are read are current, a document and its evaluation have the same targets: addresses, types, IRIs and fingerprints |
| Roots.EvaluateMany | packages/formula-runtime/src/evaluateCompiledProfileMany.ts:93-140 | the loop evaluates every stamped document in order |
| Roots.EvaluateForRoots | packages/calc-engine/src/evaluateForRoots.ts:63-115 | the documents read and evaluated, and the exact number of queries, shallow and deep |
| Roots.SelectionCovers | packages/calc-engine/src/evaluateForRoots.ts:74-100 | a run reads the document of every requested root, and of every row when none is requested |
| Roots.SelectionSound | packages/calc-engine/src/evaluateForRoots.ts:74-100 | and no other document |
| Roots.LoadedInOrder | packages/calc-engine/src/evaluateForRoots.ts:84-100 | documents are loaded in the order of the request, as often as it names them |
| Roots.RowsInOrder | packages/calc-engine/src/evaluateForRoots.ts:74-80 | rows of requested roots keep their order |
| Roots.StampExact | packages/calc-engine/src/evaluateForRoots.ts:49-57 | a type that is there is kept, a missing or empty one becomes the root type, and nothing else changes |
| Roots.UntypedRootIsComputed | packages/calc-engine/src/evaluateForRoots.ts:102-107 | a root document without a type is evaluated as a record of the root type |
| Statements.RunCounts | packages/calc-engine/src/warm.ts:345-394 | `warmed` plus `skippedFresh` is the number of targets with a plan, `writesIssued` the sum of the batches, and a pass that warms nothing changes nothing |
| Statements.SettledIff | packages/calc-engine/src/warm.ts:364-380 | a pass skips a target if and only if some path of its plan has a statement, and the current one of every path that has any carries the present fingerprint |
| Statements.RunSettles | packages/calc-engine/src/warm.ts:364-385 | after a pass every planned target is fresh when copies agree |
| Statements.WarmIdempotent | packages/calc-engine/src/warm.ts:349-394 | a second pass over the same targets warms and writes nothing and leaves the store as it is |
| Statements.SettleIff | packages/calc-engine/src/warm.ts:349-387 | second passes over any jobs are silent from every store if and only if the jobs that write agree |
| Statements.CopiesFight | packages/calc-engine/src/warm.ts:349-387 | disagreeing copies overwrite each other: once a path they share is recorded, every pass writes |
| Statements.WithoutLoadEverythingIsWritten | packages/calc-engine/src/warm.ts:364-385 | without `loadStatements` every planned target is written in every pass |
| Warm.PlanForEntity | packages/calc-engine/src/warm.ts:281-323 | one write per slot of the type that holds a string, number or boolean, in stratum and scope order |
| Warm.PlannedInOrder | packages/calc-engine/src/warm.ts:281-323 | lower strata first, and scopes of one stratum in their order |
| Warm.WritesInOrder | packages/calc-engine/src/warm.ts:281-323 | the writes of two slots with scalar values stand in the order of the slots, each with its path, value and fingerprint |
| DualAssertion.ApplyStatementWrites | packages/statement-meta/src/index.ts:466-488 | the loop over writes sets each value and renews its sidecar, as the lemmas below take it |
| DualAssertion.WriteStates | packages/statement-meta/src/index.ts:466-488 | after a write the property has the value, and the sidecar the earlier nodes for other values and, last, one node with value and fingerprint |
| DualAssertion.WriteDocKeeps | packages/sparql-db-impl/src/initSPARQLStore.ts:1024-1034 | a write keeps a root document well formed, and evaluation cannot tell it from the one before |
| DualAssertion.WrittenRawDocs | packages/sparql-db-impl/src/initSPARQLStore.ts:1020-1034 | later runs read the same documents, each with the write on it, and the root the write creates if there was none |
| DualAssertion.WriteBackKeeps | packages/sparql-db-impl/src/initSPARQLStore.ts:269-273 | after any write the documents are well formed and list every root they name, a created one included |
| DualAssertion.WrittenRootDoc | packages/sparql-db-impl/src/initSPARQLStore.ts:1020-1034 | the document of one root after a write: the one it had, or id, type and outputs of a created root |
| Warm.SameInputsSameJobs | packages/calc-engine/src/warm.ts:281-361 | documents that differ in outputs and sidecars alone have the same targets, fingerprints and writes |
| Warm.PassIsPresent | packages/calc-engine/src/warm.ts:343-361 | what a run plans is for entities that are there when it is planned |
| Warm.PassKeepsJobs | packages/calc-engine/src/warm.ts:349-387 | a whole pass with its dual assertion leaves the jobs of every later run as they were, when the entities it writes to are there |
| Warm.WarmStore.WriteStatements | packages/sparql-db-impl/src/initSPARQLStore.ts:1020-1050 | one write reaches statements and documents, creates the root if there is none, and emits its event |
| Warm.WarmStore.WarmPlan | packages/calc-engine/src/warm.ts:362-385 | the body of the loop for one plan: skip, or write statements and documents, and emit |
| Warm.WarmStore.Warm | packages/calc-engine/src/warm.ts:330-395 | the whole pass leaves the statements, documents, events and four counters of the specified run |
| Warm.CopiesAgreeSettle | packages/calc-engine/src/warm.ts:349-361 | roots whose copies have one shape plan agreeing writes |
| Warm.WarmTwiceIsSilent | packages/calc-engine/src/warm.ts:330-395 | the second pass reads the documents the first one has written to, and writes nothing: over one root, or over roots with agreeing copies |
| ReadCalcValues.CheckTargets | packages/calc-engine/src/readCalcValues.ts:182-218 | the flags of the freshness loop, and one statement load per target that owns slots |
| ReadCalcValues.VerdictExact | packages/calc-engine/src/readCalcValues.ts:182-224 | unknown when no slot of any target has a statement, fresh when some slot is asked for and the current statement of each was computed from the inputs as they are, stale otherwise |
| ReadCalcValues.LoadsExact | packages/calc-engine/src/readCalcValues.ts:187-192 | as many statement loads as there are targets of types that own a slot |
| ReadCalcValues.SpliceTargets | packages/calc-engine/src/readCalcValues.ts:226-234 | the loop sets the current values on the records of the targets |
| ReadCalcValues.ReadForRoot | packages/calc-engine/src/readCalcValues.ts:160-258 | data, verdict and query count of a report are those of the document a pass reads for the root, deep when the plan needs it, and of the row when the store has none; a missing root is told |
| ReadCalcValues.ComputedUnlessFresh | packages/calc-engine/src/readCalcValues.ts:244-257 | data that is not fresh satisfies every slot the host evaluates, and is otherwise the document |
| ReadCalcValues.ReadMany | packages/calc-engine/src/readCalcValues.ts:121-158 | one report per requested root, in order, from the last row of that root |
| ReadCalcValues.LastRowIsLast | packages/calc-engine/src/readCalcValues.ts:121-158 | the row of a root is the last one with its id |
| Reported.ManyAreListed | packages/calc-engine/src/readCalcValues.ts:121-158 | when no root has two rows, each report of a list is the one for the listed row, or says that there is none |
| Reported.ReportIsComputed | packages/calc-engine/src/readCalcValues.ts:244-257 | a report that is not fresh computes every slot the host evaluates on the root's document |
| Coherence.ReachableIsJustified | packages/calc-engine/src/warm.ts:349-387 | in every store that edits and passes can reach, on hosts that skip slots too, each statement of a slot all hosts evaluate is the value of its formula on some record with its fingerprint |
| Coherence.FreshReadIsEvaluation | packages/calc-engine/src/readCalcValues.ts:182-257 | a fresh read of a document that carries the recorded values returns exactly what evaluating it gives, on every host |
| Coherence.ReachableReadIsCoherent | packages/calc-engine/src/readCalcValues.ts:182-257 | the same in every reachable store |
| Coherence.FreshValueIsEvaluated | packages/calc-engine/src/readCalcValues.ts:187-234 | what is spliced on for a target is what evaluation puts on that target, whether or not the document read carries outputs, and whether or not they are current |
| FreshReads.FreshReadShowsEvaluation | packages/calc-engine/src/readCalcValues.ts:182-257 | a fresh read shows what evaluating the document gives, every record and every computed property, with or without recorded values in the document |
| FreshReads.ReachableReadShowsEvaluation | packages/calc-engine/src/readCalcValues.ts:182-257 | the same in every reachable store |
| Reported.FreshReportShowsEvaluation | packages/calc-engine/src/readCalcValues.ts:160-258 | in every reachable store a fresh report shows what evaluating the root's document gives |
| CopiesRead.FreshReadShowsIff | packages/calc-engine/src/readCalcValues.ts:182-243 | a fresh read shows what evaluation gives if and only if every owning record that is no target carries its values already |
| CopiesRead.StubIsNotServed | packages/calc-engine/src/readCalcValues.ts:226-234 | a stub of an owning type without the output makes the two differ |
| PlainFormulas.PlainIsStratified | packages/formula-runtime/src/evaluateCompiledProfile.ts:49-134 | formulas over source paths can be evaluated in turn when no path goes over an output of the slot or of a later one |
| PlainFormulas.PlainIsDetermined | packages/calc-engine/src/warm.ts:132-174 | on records whose paths end at scalars and whose columns hold numbers, fingerprints determine every slot |
| PlainFormulas.ItemWorth | packages/formula-runtime/src/evaluateCompiledProfile.ts:54-80 | in an aggregate an item counts with its number, a text with the number it spells, anything else with zero |
| PlainFormulas.ItemsCountAsOne | packages/formula-runtime/src/evaluateCompiledProfile.ts:66-88 | without a field every item counts as one |
| FingerprintLimits.NameOrRecord | packages/calc-engine/src/warm.ts:119-123 | a name and a record with that id have one fingerprint, and a formula binds the name and zero |
| FingerprintLimits.AmountOrList | packages/calc-engine/src/warm.ts:62-106 | a number and an array with that number have one fingerprint, and a sum counts the number only |
| FingerprintLimits.SameReadingIff | packages/formula-runtime/src/evaluateCompiledProfile.ts:100-134 | where fingerprints agree on a path, formulas read the same if and only if both records have a scalar there or neither has |
| FingerprintLimits.DeterminedIff | packages/calc-engine/src/warm.ts:132-174 | fingerprints determine the formulas of a profile, whatever these compute, if and only if records that occur with one fingerprint have scalars at the same paths |
| PlainFormulas.PlainReadsAreCoherent | packages/calc-engine/src/readCalcValues.ts:182-257 | so fresh reads of such profiles are coherent in every reachable store, with nothing assumed of the arithmetic |
| GardenFees.FeesAreCoherent | packages/calc-fixtures/src/garden-fee.ts:53-68 | the garden fee profile meets the conditions on profiles |
| GardenFees.EdgesAreDiscovered | packages/calc-fixtures/src/garden-fee.ts:4-41 | the relation edges of the garden schema are those that discovery finds in it |
| WarmThenRead.FreshReadServesEvaluatedValues | packages/calc-engine/src/readCalcValues.ts:182-243 | so in every reachable store each record of a fresh read holds the value that evaluation puts on that record |
| WarmThenRead.PassStoresValues | packages/calc-engine/src/warm.ts:351-385 | a pass that skips nothing leaves every slot of every target with its value and fingerprint, whichever agreeing root came last |
| WarmThenRead.WarmThenReadIsFresh | packages/calc-engine/src/readCalcValues.ts:185-224 | after a pass that skips nothing the read is fresh, for any document that differs from the one warmed in outputs and sidecars alone |
| WarmThenRead.WarmThenReadServesWrittenValues | packages/calc-engine/src/readCalcValues.ts:226-243 | and serves, on every target, the values the pass wrote for it |
| WarmThenRead.ReturnedReadsBack | packages/calc-engine/src/readCalcValues.ts:185-224 | the document read has the targets of the evaluated one, with equal fingerprints, when the outputs that sources read are current |
| Reported.ReportAfterWarm | packages/calc-engine/src/readCalcValues.ts:160-258 | after a pass that skips nothing the report about a root it warmed is fresh and serves the values written, whichever of row and deep document is read |
| SkippingPasses.FreshAfterPassIff | packages/calc-engine/src/warm.ts:364-380 | after any pass over agreeing roots the read is fresh if and only if no target was skipped with a slot unrecorded |
| SkippingPasses.JobsAreIndependent | packages/calc-engine/src/warm.ts:350-386 | within one document each target's entry depends on that target alone |
| WarmedReads.WrittenShowsEvaluation | packages/statement-meta/src/index.ts:466-488 | after a pass that skips nothing the root's document in the store shows its own evaluation: dual assertion makes every output current |
| WarmedReads.WarmedRootReadsFresh | packages/calc-engine/src/readCalcValues.ts:185-224 | and the read of that document is fresh |
| WarmedReads.WarmedStoreReadsFresh | packages/calc-engine/src/readCalcValues.ts:185-224 | the same for a pass over the documents of a store and the document the store then has |
| Reported.ReportOfWarmedRoot | packages/calc-engine/src/readCalcValues.ts:160-258 | a report about a root of a warmed store, from the documents it has then, is fresh |
| Hosts.EvaluationIsCompleteIff | packages/formula-runtime/src/selectLiveEvalSlots.ts:31-63 | evaluation leaves no earlier output in any document if and only if the host can evaluate every slot |
| Hosts.DeadSlotIsRestamped | packages/calc-engine/src/warm.ts:337-383 | a pass on a host that cannot evaluate a slot stores the old value under the new fingerprint |
| Pushdown.ColumnOf | packages/calc-engine/src/pushdown.ts:53-60 | the source path `over.field` yields exactly the column an aggregate reads |
| Pushdown.GetStep | packages/calc-engine/src/pushdown.ts:53-60 | one more key of a path is looked up in a record, counts the items of an array or names one of them |
| Pushdown.CountIsLength | packages/calc-engine/src/pushdown.ts:48-70 | a count is the length of the collection |
| Pushdown.SumOfOne | packages/calc-engine/src/pushdown.ts:56-63 | a sum over one item is its number |
| Pushdown.SumAddsUp | packages/calc-engine/src/pushdown.ts:56-63 | a sum over two collections one after the other is the sum of both sums, and zero over nothing |
| Pushdown.AverageTimesCount | packages/calc-engine/src/pushdown.ts:64-68 | average times count is sum, and the average of nothing is zero |
| Pushdown.NoCollection | packages/calc-engine/src/pushdown.ts:48-55 | a missing collection, or one that is no array, gives zero |
| Pushdown.FingerprintDeterminesAggregate | packages/calc-engine/src/pushdown.ts:48-70 | equal fingerprints give equal sums, averages and counts over records with numeric fields |
| Pushdown.TryPushdownAggregates | packages/calc-engine/src/pushdown.ts:77-97 | nothing is pushed without an answer, and an answer is passed on unchanged |
| Pushdown.AssertPushdownEqualsJs | packages/calc-engine/src/pushdown.ts:103-120 | a comparison fails exactly when the store answered, and differently from the reference of the rows above |
| Climb.DiscoverRelationEdges | packages/calc-engine/src/delta.ts:61-75 | the two loops collect the edges of the lemma below |
| Climb.EdgesExact | packages/calc-engine/src/delta.ts:40-75 | an edge for each property of each definition that refers to a type, below any number of arrays, and no other |
| Climb.FindParentsExact | packages/calc-engine/src/delta.ts:313-335 | the planner over stored references returns exactly the parents of the given children |
| Climb.ClimbAffectedRoots | packages/calc-engine/src/delta.ts:107-162 | the loop with its early exits returns the roots and query count the lemmas below are about |
| Climb.ClimbQueries | packages/calc-engine/src/delta.ts:107-162 | a climb asks once for every edge into each type it goes through, at most `maxHops` of them, and no more |
| Climb.AffectedRootsSound | packages/calc-engine/src/delta.ts:107-162 | on any schema each returned IRI is reached within `maxHops` references, with at most `maxHops` queries per edge |
| Climb.AffectedRootsExact | packages/calc-engine/src/delta.ts:107-162 | on a line of single parent types exactly the first roots above the given entities are returned, which are all that depend on them unless the root type is its own ancestor |
| ClimbLimits.ExactIff | packages/calc-engine/src/delta.ts:107-162 | on every store exactly the dependent roots are returned, if and only if the root is no ancestor type, or a single line of parent types leads to it within `maxHops` and it is not its own ancestor |
| ClimbLimits.DirectChildExactIff | packages/calc-engine/src/delta.ts:135-155 | for a direct child of the root, exact on every store if and only if only the root type refers to it and the root type is not its own ancestor |
| ClimbLimits.EdgesDistinct | packages/calc-engine/src/delta.ts:61-75 | the edges of every schema name one child type for each parent type and property |
| ClimbCoverage.AllOrNoneIff | packages/calc-engine/src/delta.ts:107-162 | on every store all dependent roots are returned or none, if and only if the schema has no fork, and the climb reaches no root type that is its own ancestor |
| ClimbCoverage.DirectChildUnforkedIff | packages/calc-engine/src/delta.ts:135-155 | a direct child of the root has no fork if and only if no other parent type of it has the root among its ancestor types |
| Climb.DeadEndHidesRoots | packages/calc-engine/src/delta.ts:145-155 | when the one type taken for all parents leads nowhere, nothing is returned |
| Climb.TwoParentTypesLoseARoot | packages/calc-engine/src/delta.ts:135-155 | a schema with two parent types on which a dependent root is missed |
| Scheduler.Subscription.RunOrQueue | packages/calc-engine/src/delta.ts:215-231 | start, or merge into the queue |
| Scheduler.Subscription.Finish | packages/calc-engine/src/delta.ts:241-248 | the queued task starts when a run ends |
| Scheduler.MergeCovers | packages/calc-engine/src/delta.ts:216-227 | merging covers exactly what either task covers, and keeps tasks proper |
| Scheduler.TargetedMergeLosslessIff | packages/calc-engine/src/delta.ts:221-226 | a targeted task merges into a root list without loss if and only if it names a root |
| Scheduler.MutualExclusion | packages/calc-engine/src/delta.ts:212-250 | in every trace at most one run is in flight, and nothing is queued while none is |
| Scheduler.NoLostTrigger | packages/calc-engine/src/delta.ts:212-250 | for every trigger in every trace each root it covers is covered by a later start or by the queue |
| Invalidation.DirtyScopesForChange | packages/calc-engine/src/delta.ts:82-100 | the scopes of a type's slots with their dependents |
| Invalidation.DirtyScopesExact | packages/calc-engine/src/delta.ts:82-100 | dirty are the scopes of the type's slots and their dependents, and no other |
| Invalidation.OnEvent | packages/calc-engine/src/delta.ts:252-301 | the listener's five ways out |
| Invalidation.OnClimbed | packages/calc-engine/src/delta.ts:279-292 | the continuation of a climb requests its roots, or a full sweep |
| Invalidation.IgnoredIff | packages/calc-engine/src/delta.ts:254-277 | exactly the upserts are dropped of types that own no slot and are no direct child of the root |
| Invalidation.InvalidationCovers | packages/calc-engine/src/delta.ts:252-297 | for handled types without a fork or a root above roots, the requested warm covers every root that depends on the changed entity, through other roots too |
| Invalidation.CoverageIff | packages/calc-engine/src/delta.ts:252-297 | upserts of a type are covered on every store, with a planner or without, if and only if no root can depend on the type, or the type is handled and nothing above it hides a root |
| Invalidation.DirectChildCoverageIff | packages/calc-engine/src/delta.ts:252-297 | for a direct child of the root and with a planner: if and only if no other type that refers to it has the root among its ancestor types, and the root type is not its own ancestor |
| Invalidation.EightHops | packages/calc-engine/src/delta.ts:107-122 | along a line of single parent types climbs are exact on every store if and only if it has at most eight |
| Invalidation.RegionHidesCity | packages/calc-engine/src/delta.ts:279-292 | a store on which the upsert of a place requests a warm that leaves out a city which depends on it |
| Invalidation.PlaceHidesPart | packages/calc-engine/src/delta.ts:261-265 | the upsert of a place warms it and not the place that is part of it |
| Invalidation.MayorHidesPart | packages/calc-engine/src/delta.ts:129-131 | the climb from a mayor stops at the first place, and leaves out the place that is part of it |
| Engine.SomeStepIsLegal | packages/calc-engine/src/delta.ts:215-301 | an engine that is not at rest can take a step |
| Engine.NextSane | packages/calc-engine/src/delta.ts:172-250 | every step but an edit leaves documents with the jobs and references they had, dual assertion included, while the run in flight writes to entities that are there |
| Engine.StepLowers | packages/calc-engine/src/delta.ts:172-250 | without edits every step, failures included, lowers the measure: outdated work first, then stale targets, then pending work |
| Engine.Converges | packages/calc-engine/src/delta.ts:172-250 | in every schedule, once no run writes to removed roots any more, which happens, the engine reaches "not running, nothing queued, nothing pending" |
| Engine.StepAccounts | packages/calc-engine/src/delta.ts:215-301 | every step keeps each root fresh or accounted for by an event, a climb, the queue or the run, when a write creates a removed root too |
| Engine.EventuallyFresh | packages/calc-engine/src/delta.ts:172-301 | from any state that accounts for every root, once edits end, the engine comes to rest with every target of every root fresh |
| Engine.NeverRestsWithoutLoad | packages/calc-engine/src/warm.ts:364 | without `loadStatements` a triggered engine is at rest in no later state |
| Startup.SubscribesOnce | packages/calc-worker/src/createCalcWorker.ts:58-75 | the sweep ends, and the worker subscribes with the statements of a pass over what the sweep read, whatever was edited meanwhile |
| Startup.FreshAtRestIff | packages/calc-worker/src/createCalcWorker.ts:67-75 | from the subscription on a worker is fresh at rest in every schedule if and only if every root is fresh at that moment |
| Startup.UnchangedIsFresh | packages/calc-worker/src/createCalcWorker.ts:58-65 | the sweep leaves every root fresh whose jobs are still those it read |
| Startup.ColdStartIff | packages/calc-worker/src/createCalcWorker.ts:58-75 | from a store without statements every root is fresh at the subscription if and only if the sweep has planned every job the roots have by then |
| Startup.EditIsLost | packages/calc-worker/src/createCalcWorker.ts:58-75 | an edit before the subscription that changes a job to one the sweep has not settled leaves some schedule at rest with that root stale for ever |
| Startup.StaysFresh | packages/calc-worker/src/createCalcWorker.ts:67-75 | a worker that is fresh when it subscribes comes to rest fresh after the last edit |
| CalcSystem.WorldIsFaithful | packages/calc-engine/src/warm.ts:330-387 | runs over real documents, fingerprints, events and dual assertion keep the contract of the machine, for slots that can be evaluated in turn and schemas on which every handled type is covered |
| CalcSystem.WriteIsEquivalent | packages/statement-meta/src/index.ts:466-488 | a write to an entity that is there changes no job of any run or root, no reference, and nothing that events are bound to |
| CalcSystem.WriteExtends | packages/sparql-db-impl/src/initSPARQLStore.ts:1020-1050 | a write to a removed root adds that root and changes no other, and its event leads to a warm of it |
| CalcSystem.RemovedRootReturns | packages/sparql-db-impl/src/initSPARQLStore.ts:1020-1034 | a root that is removed while a run has it planned is listed again when the run writes, with its outputs only |
| References.EntityIsReferenced | packages/calc-engine/src/delta.ts:107-162 | in documents that follow the edges of the schema, a root depends on every entity its document shows, other roots included |
| References.RefsExact | packages/calc-engine/src/delta.ts:313-335 | a document holds a reference if and only if one of its records has it in a property, directly or in an array |
| References.EditedShows | packages/calc-engine/src/delta.ts:252-297 | a document that was changed inside records of one entity shows that entity |
| CalcSystem.PledgeIsCovered | packages/calc-engine/src/delta.ts:252-297 | the request an event leads to, over the references of the documents at that moment, covers every root whose document shows the entity |
| CalcSystem.ClimbIsLegal | packages/calc-engine/src/delta.ts:279-292 | the climb answered from those references is a step the machine allows |
| CalcSystem.EchoesLeadBack | packages/calc-engine/src/delta.ts:172-182 | the event of each written target leads, through the references in the documents, to a request that covers every root it was written for |
| CalcSystem.EditIsAnnounced | packages/calc-engine/src/delta.ts:252-297 | an edit of one entity, a root shown in other documents included, is announced by its upsert: every root whose jobs change shows that entity |
| CalcSystem.RemovalIsAnnounced | packages/calc-engine/src/delta.ts:252-257 | a removal announces whatever it changes |
| CalcSystem.SystemSettles | packages/calc-engine/src/warm.ts:349-387 | with `loadStatements` and agreeing copies the documents allow convergence |
| CalcSystem.SweepIsEnough | packages/calc-worker/src/createCalcWorker.ts:58-65 | when every root's document shows at the subscription what it showed to the sweep, every root is fresh |
| CalcSystem.WorkerKeepsUpToDate | packages/calc-worker/src/createCalcWorker.ts:45-75 | in every run from the start of a worker: it subscribes with the statements of the sweep, is fresh at rest from there in every schedule if and only if it is fresh then, and in that case comes to rest after the last edit with every target of every root computed from the documents as they are |
| LostEdit.RenameIsLost | packages/calc-worker/src/createCalcWorker.ts:58-75 | a city renamed between sweep and subscription keeps the label of its old name for ever |
| GardenFees.FeesAreSafe | packages/calc-fixtures/src/garden-fee.ts:53-68 | the garden fee profile and its schema meet the conditions of the theorem above, on every host that can afford its slots |
| Utf8.DecodeEncoded | packages/core-utils/src/encodeIRI.ts:45 | decoding the UTF-8 bytes of a string gives the string, for one to four bytes per character |
| Utf8.RoundTrip | packages/core-utils/src/encodeIRI.ts:44-57 | with the decoder's byte order mark rule, less one leading U+FEFF |
| Utf8.Rfc3629Examples | packages/core-utils/src/encodeIRI.ts:45 | the examples of section 7 of RFC 3629 |
| Utf8.DecodedBack | packages/core-utils/src/encodeIRI.ts:55-56 | bytes that decode without a replacement character are the encoding of what comes out |
| Utf8.MalformedExamples | packages/core-utils/src/encodeIRI.ts:55-56 | malformed bytes give one replacement character for each longest part that could begin a character |
| Base64.BytesToBase64 | packages/core-utils/src/encodeIRI.ts:3-13 | the chunked loop gives standard base64, for every length |
| Base64.Base64ToBytes | packages/core-utils/src/encodeIRI.ts:15-25 | the array loop gives the decoded bytes, or fails where `atob` throws |
| Base64.StandardDecodes | packages/core-utils/src/encodeIRI.ts:3-25 | decoding the standard form gives the bytes back |
| Base64.Rfc4648Examples | packages/core-utils/src/encodeIRI.ts:3-13 | examples of section 10 of RFC 4648, and the last two digits of its alphabet |
| IriCodec.NormalizesIff | packages/core-utils/src/encodeIRI.ts:31-38 | input normalizes to the standard form of some bytes if and only if it spells that form, with all, part or none of the padding |
| IriCodec.ToleratesEveryForm | packages/core-utils/src/encodeIRI.ts:15-57 | padded, unpadded, space-damaged and base64url forms decode to the same |
| IriCodec.EncodedIsUrlSafe | packages/core-utils/src/encodeIRI.ts:27-47 | the output uses the url-safe alphabet only, has no padding, and has the exact length |
| IriCodec.RoundTripIff | packages/core-utils/src/encodeIRI.ts:44-57 | decoding an encoded IRI gives it back if and only if it does not start with U+FEFF |
| IriCodec.EncodingIsInjective | packages/core-utils/src/encodeIRI.ts:44-47 | different IRIs have different encodings |
| IriCodec.DecodesIff | packages/core-utils/src/encodeIRI.ts:15-57 | which of all texts are decoded and on which `atob` throws: it skips tabs, line and form feeds and carriage returns, but the padding that is added counts them |
| IriCodec.PlainDecodesIff | packages/core-utils/src/encodeIRI.ts:15-57 | a text without these is decoded if and only if its characters are readable, never one more than 4k, and its padding is at most what they lack |
| OxigraphWorker.Worker.OnMessage | packages/async-oxigraph/assets/worker.js:13-174 | a handler up to its first `await`: store, reply or failure for each task |
| OxigraphWorker.Worker.Resume | packages/async-oxigraph/assets/worker.js:50-98 | INIT and LOAD after their `await`, over the store as it is by then |
| OxigraphWorker.InitAlone | packages/async-oxigraph/assets/worker.js:50-65 | INIT makes an empty store if there is none, keeps the one there is, and fails when the module does |
| OxigraphWorker.LoadAlone | packages/async-oxigraph/assets/worker.js:68-97 | LOAD tells by how much the store grew and how large it is, and keeps what was loaded before a failure |
| OxigraphWorker.LoadInterrupted | packages/async-oxigraph/assets/worker.js:68-97 | what other handlers add before the load resumes is counted in |
| OxigraphWorker.QueryAlone | packages/async-oxigraph/assets/worker.js:119-180 | QUERY reads or updates the store, and passes on results, growth and failures |
| OxigraphWorker.DumpAlone | packages/async-oxigraph/assets/worker.js:100-124 | DUMP passes on what the store gives; without a store DUMP and QUERY say so and make none |
| OxigraphClient.AsyncOxigraph.AddQueryDefinitions | packages/async-oxigraph/src/index.ts:119-124 | the loop adds each definition whose id is not taken |
| OxigraphClient.FirstDefinitionWins | packages/async-oxigraph/src/index.ts:119-132 | lookups find the first definition of an id, and ids stay unique |
| OxigraphClient.BackgroundTask.OnTimeout | packages/async-oxigraph/src/index.ts:168-176 | the timer sets the flag and rejects |
| OxigraphClient.BackgroundTask.OnMessage | packages/async-oxigraph/src/index.ts:180-186 | the listener ignores other ids and late replies, and rejects before it resolves |
| OxigraphProtocol.SettledOnce | packages/async-oxigraph/src/index.ts:161-192 | in every interleaving a settled call keeps its outcome, a timeout stays, and a store once defined stays defined |
| OxigraphProtocol.OneReplyEach | packages/async-oxigraph/assets/worker.js:13-47 | at most one reply per message, also on failure |
| OxigraphProtocol.AnsweredAtRest | packages/async-oxigraph/assets/worker.js:13-47 | every message has been answered once the worker is idle |
| OxigraphProtocol.ResolvedIff | packages/async-oxigraph/src/index.ts:161-192 | with distinct ids a call resolves if and only if its own, error-free reply arrives before the timeout |
| OxigraphProtocol.PendingCanExpire | packages/async-oxigraph/src/index.ts:168-183 | a pending call always has a running timer that can settle it, even after `close` |
| OxigraphProtocol.AfterInitTheStoreIsFound | packages/async-oxigraph/assets/worker.js:50-65 | after an INIT has resolved, no later call is told that there is no store |
| OxigraphProtocol.CollidingIdsMixReplies | packages/async-oxigraph/src/index.ts:164-186 | two calls with one id: a query resolves with the reply to an INIT |
| FilterJsonLd.FilterInto | packages/core-utils/src/filterJSONLD.ts:1-21 | the recursion with its shared visited set ends on every graph whose cycles pass through a record, and computes the specified result |
| FilterJsonLd.GroundedIff | packages/core-utils/src/filterJSONLD.ts:3-5 | a termination measure for the recursion through arrays exists if and only if no walk from array to array comes back |
| FilterJsonLd.ExpandsOnce | packages/core-utils/src/filterJSONLD.ts:6-18 | one new record for each object that became visited |
| FilterJsonLd.PathsKept | packages/core-utils/src/filterJSONLD.ts:1-21 | on every graph a path without "@" keys leads to the same place in input and result |
| FilterJsonLd.CreatedKeysAreClean | packages/core-utils/src/filterJSONLD.ts:11-18 | no key of a new record starts with "@", at any depth |
| FilterJsonLd.AllNewIff | packages/core-utils/src/filterJSONLD.ts:6-8 | input objects are left in the result if and only if a record is met more than once |
| FilterJsonLd.FilterTwice | packages/core-utils/src/filterJSONLD.ts:1-21 | without sharing there is no "@" key at any depth, and the result, laid out as a graph of its own, is filtered to itself |
| FilterJsonLd.SharingLeavesAtKeys | packages/core-utils/src/filterJSONLD.ts:6-8 | a shared object keeps its "@" key |

## Left out

- Numbers are integers: no float rounding, NaN, or infinities. `Number()` of a field that is not a number is a parameter, and averages are exact reals.
- Strings are sequences of Unicode scalar values: no lone surrogates. Both `sort` and `localeCompare` order by code point.
- Cyclic and shared documents in target collection and evaluation: a record is identified by its address, so two references to one object are two records.
- Coherence.FreshReadIsEvaluation: exact equality assumes that the document read carries the recorded values already; without that, `FreshReads.FreshReadShowsEvaluation` proves equality up to sidecars and the order of computed properties, which the splice does not restore.
- FreshReads.FreshReadShowsEvaluation: assumes that every record that owns slots is a target, because the splice does not touch other copies of an entity in one document; the exact condition is `CopiesRead.FreshReadShowsIff`.
- Inputs.EvaluationKeepsTargets: assumes that an output which a source path reads is current in the document; when it is missing or outdated, the fingerprint read need not be the one a pass computes.
- WarmedReads.WarmedRootReadsFresh: is about passes that skip nothing and targets whose slots all gave a scalar; an undefined slot is never written, and the read is then not fresh.
- Engine.EventuallyFresh: assumes that runs and climbs do not fail, because a failed one drops its trigger in the code as well; `Engine.Converges` allows failures.
- CalcSystem.WorkerKeepsUpToDate: needs a host that evaluates every slot, and a schema on which the upserts of every handled type are covered; both conditions are exact elsewhere (`Hosts.EvaluationIsCompleteIff`, `Invalidation.CoverageIff`). A climb reads the documents at the moment it ends, not hop by hop. An edit after the subscription changes one entity of a type the handler does not drop, or removes one. Documents list every root they name, and follow the edges of the schema.
- Startup.SubscribesOnce: the sweep reads the documents in one step, and a sweep that fails, after which there is no worker, is not modelled.
- DualAssertion.WriteBackKeeps: a store creates missing records of other types too, but only roots are read on their own. The short type name stands for the type IRI, as in `stampShortType`.
- DualAssertion.ApplyStatementWrites: a write path is one property of its record, and a sidecar keeps the value and the fingerprint of a statement, without agents and times.
- Pushdown.FingerprintDeterminesAggregate: aggregates with a field; those without one are in `PlainFormulas.PlainIsDetermined`.
- IriCodec.DecodesIff: is about the browser branch; Node's `Buffer` skips characters that `atob` rejects. On the forms of `IriCodec.ToleratesEveryForm` the two agree.
- OxigraphProtocol.ResolvedIff: needs distinct task ids, which random ids give with high probability only.
- The start of a run is one step: the synchronous part before `running` is assigned cannot emit events.
- `warmNow`, which starts a pass beside the subscription's.
- `planCalcReads`, `planInvalidation`, `compileCalcProfile`, and the formula engine: parameters.
- lodash `toPath` and `get` on brackets, string members and prototype properties: a source is its text together with its segments.
- The `where` option, the result cache, the list of incomplete aggregates, agents, timestamps and provenance: they affect none of the properties. The current statement is the last one written, whichever older ones a store retains.
- Inherited or numeric-like record keys, whose order JavaScript changes.
- The contents of an Oxigraph store, graph names and base IRIs of a load, handlebars replacement and post-processing of saved queries.
- Store back ends, HTTP and UI packages, schema tooling, and the bundled third-party scripts.
