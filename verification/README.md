# Verification of the RD entry and telemetry edges

A Dafny model of the decision logic of two edge workers, with proofs over every
input, every run and every reachable state.

- **RD entry stream, version 2** (`EntryDomainV2`, `EntryMatcherV2`, `EntryArbitratorV2`,
  `EntryStreamV2`, `EntryStreamRunsV2`, `EntryStreamTheoremsV2`, `EntrySelectionV2`,
  `EntryMatchMeaningV2`, `EntryStreamMeaningV2`, `EntryStreamAcceptanceV2`): a state machine
  over confirmed five-minute bars that keeps the first candidate per model, tracks
  higher-timeframe transcripts, closes once, and arbitrates.
- **RD entry, version 3** (`EntryDomainV3`, `EntryMatcherV3`, `EntryArbitratorV3`,
  `EntryEvaluatorV3`, `EntryMeaningV3`): matcher and arbitrator against the separately
  written validator.
- **Telemetry synchronisation** (`TelemetryWire`, `TelemetryAdmission`,
  `TelemetryRepository`, `TelemetryRuns`, `TelemetryTheorems`, `TelemetryDeals`,
  `TelemetryDecisions`): a numbered protocol with optimistic concurrency, exact replay and
  an event journal.
- **Fixed decimals** (`Decimal`, `FixedDecimal`, `TelemetryVolumes`): printer, parser and
  adder on texts, and the volume rules built on them.
- **Candidate outbox** (`Outbox`, `OutboxRuns`, `ProposalIngestion`, `IngestionRuns`):
  contiguous ingestion that feeds a lease, token and retry protocol.
- **Canonical JSON** (`Json`, `JsonParser`, `JsonReader`, `JsonRoundTrip`,
  `CanonicalJson`, `JsonSoundness`, `JsonGrammar`, `JsonReading`): printer and bounded
  parser, and the grammar of RFC 8259, sections 2 to 7, that the parser is measured by.
- **Broker geometry** (`ExactPrice`, `BrokerGeometry`, `BrokerGeometryTheorems`):
  exact reconstruction of a candidate on another tick grid.
- **Paper automation** (`Paper`, `PaperTheorems`, `PaperDecisions`): the batch allocator.

`Common`, `Sorting`, `Indexing` and `EntryTerms` hold shared vocabulary.
`dafny verify dfyconfig.toml` checks everything.

## How to read the model

A function that throws returns `None` or `Err`. A loop that updates variables, maps or
tables is a method or a class, proved equal to a function or to an order-free
specification; the theorems are about those. The modules named `Meaning`, `Acceptance`
and `Decisions` state results on the fields of the input alone, without the functions that
compute them. Concurrency is a transition system: a label per atomic step, any sequence of
labels is a run, and theorems speak of every run from the empty tables. Between two reads of
one call, and between its reads and its batch, any other steps may happen; batches may also
be applied late, twice or never.

Assumptions, all explicit in the contracts or here:

- SHA-256 is a parameter that gives different digests to different inputs and never the
  all-zero digest (`CollisionFree`). Claim tokens are fresh.
- One database batch is one atomic step. The constraints relied on are: for telemetry the
  keys, the `CHECK` on the request counter and the revision trigger of migration 0004; for
  ingestion and outbox the primary keys, `UNIQUE (producer, sequence)` and the
  candidate-conflict trigger of the schema under `apps/observation-edge/test/fixtures`.
- Records are typed, so key, prototype and pattern checks of single fields are part of the
  types. Integers are unbounded, with the safe-integer tests of the code written out.
- JSON strings are sequences of Unicode scalar values.

Where something turned out not to hold as the code's structure suggests: the version 3 input
validator admits inputs whose result the result validator then rejects. `UnsettledExample`
gives one, and `ProducerMeetsChecker` gives the exact condition. In version 2 the explicit
gap-erasure check can never be the one that fires, because the child-count check precedes it.

## Model

| member | source | states |
|---|---|---|
| `EntryStreamTheoremsV2.StreamIgnoresOrder` | apps/observation-edge/src/rd-entry-arbitrator.ts:915-966 | two inputs with the same set of events are accepted together and give equal candidates, evidence, handling and selection |
| `EntryStreamTheoremsV2.ArbitrationNeverRejects` | apps/observation-edge/src/rd-entry-arbitrator.ts:1099-1128 | whatever events come in, the final arbitration is never the step that refuses, and neither are the rejections for a changed terminal fact, a candidate out of an invalidation, or an erased gap |
| `EntryStreamTheoremsV2.LoopMeetsArbitrator` | apps/observation-edge/src/rd-entry-arbitrator.ts:472-524 | every state that satisfies the run invariant passes all identity, coverage, chronology and reference checks of the arbitrator |
| `EntryStreamTheoremsV2.RunKeeps` | apps/observation-edge/src/rd-entry-arbitrator.ts:977-1097 | the run invariant holds after every accepted prefix of events, and a refusal is one of the reachable ones |
| `EntryStreamRunsV2.StepKeeps` | apps/observation-edge/src/rd-entry-arbitrator.ts:977-1097 | one event, before or after the terminal fact, keeps the run invariant: one candidate per model, own ids, evidence that names a kept candidate, counted transcripts |
| `EntryStreamRunsV2.AcceptKeeps` | apps/observation-edge/src/rd-entry-arbitrator.ts:1043-1060 | the candidate loop never meets an id conflict, files at most one candidate per model and never replaces one |
| `EntryStreamRunsV2.UpsertsKeep` | apps/observation-edge/src/rd-entry-arbitrator.ts:708-794 | the transcript updates of one event keep the child counts consistent, and the explicit gap-erasure check never fires |
| `EntryStreamRunsV2.MatchGood` | apps/observation-edge/src/rd-entry-matcher.ts:925-1080 | every row the matcher emits carries its own digest, respects the bar's chronology, and its evidence names a candidate of the same result |
| `EntryStreamRunsV2.ResolvedSound` | apps/observation-edge/src/rd-entry-matcher.ts:263-452 | a proof that is accepted, expanded or not, is exactly what its own valid transcript expands to |
| `EntryStreamTheoremsV2.TerminalCharacterised` | apps/observation-edge/src/rd-entry-arbitrator.ts:633-696 | in every accepted run both active models are kept if and only if the terminal reason says so, and kept candidates have pairwise different models |
| `EntryStreamTheoremsV2.TerminalEnds` | apps/observation-edge/src/rd-entry-arbitrator.ts:979-1014 | after any prefix that has the terminal fact at most one event follows, and it changes nothing but handling |
| `EntryStreamTheoremsV2.GraceUnusedWhenOpen` | apps/observation-edge/src/rd-entry-arbitrator.ts:972-1014 | the single grace event is unused as long as no terminal fact exists |
| `EntryStreamTheoremsV2.TranscriptsContinue` | apps/observation-edge/src/rd-entry-arbitrator.ts:708-805 | between any two points of a run each context's transcript moves to a later anchor or extends the same one: cutoff and counts grow, a gap stays, and without a gap the contact and recross candles stay |
| `EntryStreamTheoremsV2.GapStaysByCounts` | apps/observation-edge/src/rd-entry-arbitrator.ts:708-794 | the child-count rule alone keeps a gap once seen |
| `EntryStreamTheoremsV2.EvaluateEntryStream` | apps/observation-edge/src/rd-entry-arbitrator.ts:915-1128 | the loop over ordered events with its maps, terminal fact and grace flags computes the specified evaluation, refusals included |
| `EntryMatcherV2.EvaluateEntryMatch` | apps/observation-edge/src/rd-entry-matcher.ts:925-1080 | the arrays filled by pushing one group after the other are the specified rows; a throw happens exactly on the specified inputs |
| `EntryMatchMeaningV2.AcceptedExactly` | apps/observation-edge/src/rd-entry-matcher.ts:925-976 | a request is accepted exactly when it is well shaped, a terminal epoch is the bar's close, every transcript is a scan, faithful to its expansion, no longer than the bar and triggered after the engagement, contexts differ, and on a live setup one anchor has one trigger |
| `EntryMatchMeaningV2.ScansExactly` | apps/observation-edge/src/rd-entry-matcher.ts:213-452 | a transcript is valid exactly when it scans whole five-minute bars of one candle at a divisor of five minutes, counts its child bars, and shows contact with the zone and then, at once or later, a first passing of the open in the setup's direction |
| `EntryMatchMeaningV2.ShapeExactly` | apps/observation-edge/src/rd-entry-matcher.ts:865-923 | a request has a valid shape exactly when zone, bar, engagement, terminal facts and attempt are proper |
| `EntryMatchMeaningV2.CandidatesExactly` | apps/observation-edge/src/rd-entry-matcher.ts:970-1074 | on the bar, setup and transcripts: a close candidate exactly when a live setup's bar closes in its direction beyond the far edge of the zone, a flip candidate for an anchor exactly when a transcript of it has contact and recross; normalized, matched or blocked as the generic break and the cleanness of the transcripts say; nothing else |
| `EntryMatchMeaningV2.EvidenceExactly` | apps/observation-edge/src/rd-entry-matcher.ts:664-863 | the evidence rows are exactly those of the confirming bar and of the crossed transcripts, with trigger, price, coverage, fidelity, rules, ambiguities and claims given by bar and transcript, and with the contexts of all transcripts that agree |
| `EntryMatchMeaningV2.HandlingExactly` | apps/observation-edge/src/rd-entry-matcher.ts:664-863 | one observation for each evidence row, a close or a flip inside the bar, at its trigger, and no other |
| `EntryMatchMeaningV2.EligibleExactly` | apps/observation-edge/src/rd-entry-arbitrator.ts:388-395 | such evidence is exact for the arbitrator if and only if the setup is exact and, for a flip, the transcript is gap-free, ordered, unambiguous and did not start beyond the zone |
| `EntryMatchMeaningV2.CandidatesInOrder` | apps/observation-edge/src/rd-entry-matcher.ts:992-1050 | candidates are listed once per model, flips once per anchor and by ascending anchor |
| `EntryStreamMeaningV2.StreamMeans` | apps/observation-edge/src/rd-entry-arbitrator.ts:977-1128 | an accepted stream returns exactly: for each model the candidate of least anchor of the first event that calls for the model; the evidence that events give of these; their observations, and the wick of the bar right after the first confirmed close |
| `EntryStreamMeaningV2.RunHolds` | apps/observation-edge/src/rd-entry-arbitrator.ts:977-1097 | the same of the state after every accepted prefix, the grace event included |
| `EntryStreamMeaningV2.WickExactly` | apps/observation-edge/src/rd-entry-arbitrator.ts:847-893 | the recorded wick is the tail against the setup, below the body for long and above it for short, of the bar that opens at the first confirmed close |
| `EntryStreamMeaningV2.SelectedIsEntry` | apps/observation-edge/src/rd-entry-arbitrator.ts:397-470 | a paper-eligible selection of a stream points at an exact entry that one event shows: a close beyond the zone, or a clean flip at its recross |
| `EntryStreamAcceptanceV2.StreamAcceptedExactly` | apps/observation-edge/src/rd-entry-arbitrator.ts:915-1128 | a stream is accepted exactly when its events can be arranged by close in one scope, every event fits those before it, and the invalidation flag says whether the setup died before any active model was seen |
| `EntryStreamAcceptanceV2.RunExactly` | apps/observation-edge/src/rd-entry-arbitrator.ts:977-1097 | every event fits: before the terminal fact it is matchable, its transcripts follow the last ones given, and its terminal reason agrees with the models seen; after it only the bar that may carry the awaited wick, unchanged in everything else |
| `EntryStreamAcceptanceV2.UpsertExactly` | apps/observation-edge/src/rd-entry-arbitrator.ts:708-794 | a transcript is taken exactly when it is the stored one, a later candle, or more of the same candle: the same open and resolution, neither fewer bars seen nor fewer missing, and without a gap the same contact and recross |
| `EntryStreamAcceptanceV2.MergedExactly` | apps/observation-edge/src/rd-entry-arbitrator.ts:633-696 | from an open state a terminal reason is accepted exactly when it says whether both models are seen, and an invalidation whether any was |
| `EntryArbitratorV2.Arbitrate` | apps/observation-edge/src/rd-entry-arbitrator.ts:472-614 | accepts exactly the requests that satisfy every validator, and selects the specified decision |
| `EntryArbitratorV2.IndexTriggers` | apps/observation-edge/src/rd-entry-arbitrator.ts:530-564 | the one-pass maps hold, per active candidate, its best exact evidence and its first non-exact trigger |
| `EntryArbitratorV2.BestExactIsLeast` | apps/observation-edge/src/rd-entry-arbitrator.ts:369-395 | the kept exact evidence exists exactly when there is one and has the least trigger of all |
| `EntrySelectionV2.StreamSelectionCharacterised` | apps/observation-edge/src/rd-entry-arbitrator.ts:397-470 | for every accepted stream: paper eligible if and only if exactly one model attains the earliest exact trigger, and the selected evidence has that trigger, on the close-fallback path too |
| `EntrySelectionV2.SelectionCharacterised` | apps/observation-edge/src/rd-entry-arbitrator.ts:397-470 | the same for any request with at most one active candidate per model |
| `EntrySelectionV2.FallbackIsSole` | apps/observation-edge/src/rd-entry-arbitrator.ts:414-438 | with one candidate per model the close fallback is taken only when the close is the only exact candidate |
| `EntrySelectionV2.StreamReasonCharacterised` | apps/observation-edge/src/rd-entry-arbitrator.ts:397-470 | the reason and the action of an accepted stream, each in terms of its candidates and evidence: invalidated, no active candidate, no exact trigger, several leading models, several exact candidates, close fallback, or the only one |
| `EntrySelectionV2.ReasonCharacterised` | apps/observation-edge/src/rd-entry-arbitrator.ts:397-470 | the same for any request with at most one active candidate per model |
| `EntrySelectionV2.StreamSelectsPreferred` | apps/observation-edge/src/rd-entry-arbitrator.ts:369-395 | the selected evidence of a stream is the exact evidence of the selected candidate with the earliest trigger, finest resolution, most contexts, earliest end of coverage and least id, compared in this order |
| `EntrySelectionV2.SelectionBears` | apps/observation-edge/src/rd-entry-arbitrator.ts:566-614 | a selection names exactly the active candidates as considered and bears the setup, revision and time of its request |
| `EntryEvaluatorV3.ProducerMeetsChecker` | apps/observation-edge/src/rd-entry-domain-v3.ts:1031-1200 | what matcher and arbitrator produce passes the independent validator if and only if the input is settled: a confirmed bar has closed by the observation, a flip proof carries both candles |
| `EntryEvaluatorV3.EvaluateBundle` | apps/observation-edge/src/rd-entry-arbitrator-v3.ts:409-432 | a result exactly for valid inputs whose effective form is settled; the result is valid, lists the matches, and holds the decided selection |
| `EntryMeaningV3.BundleMeans` | apps/observation-edge/src/rd-entry-arbitrator-v3.ts:370-432 | on the input fields: each model is matched with exact evidence exactly when its proof is there and its conditions on engagement, direction, prices, lifecycle, plane, replayability and fidelity hold |
| `EntryMeaningV3.BocMeans` | apps/observation-edge/src/rd-entry-matcher-v3.ts:254-335 | a break is rejected exactly when the trigger does not pass the reference in the setup's direction, matched exactly when it does and is trusted, blocked otherwise; its tier, anchor and trigger are those of the proof |
| `EntryMeaningV3.CloseMeans` | apps/observation-edge/src/rd-entry-matcher-v3.ts:337-393 | a close is matched with exact evidence exactly on an engaged, exact, valid setup, and blocked otherwise |
| `EntryMeaningV3.FlipMeans` | apps/observation-edge/src/rd-entry-matcher-v3.ts:395-465 | a flip is matched with exact evidence exactly when contact, recross, order, coverage and boundary hold, and blocked otherwise |
| `EntryMeaningV3.BreakRules` | apps/observation-edge/src/rd-entry-matcher-v3.ts:254-335 | a break names the rule of the first failing check, in the order setup, direction, plane, fidelity, context; without one its own rule passes |
| `EntryMeaningV3.FlipRules` | apps/observation-edge/src/rd-entry-matcher-v3.ts:132-174 | a flip names the rule of the first failing check, in the order setup, scan, prices, plane, fidelity; without one its own rule passes |
| `EntryMeaningV3.CloseRules` | apps/observation-edge/src/rd-entry-matcher-v3.ts:337-393 | a close names the failing setup rule, and otherwise passes its own |
| `EntryMeaningV3.PayloadsCarry` | apps/observation-edge/src/rd-entry-matcher-v3.ts:254-465 | coverage, contexts, reference prices and candles of the evidence are those of the proof |
| `EntryMeaningV3.SelectedExactly` | apps/observation-edge/src/rd-entry-arbitrator-v3.ts:309-368 | something is selected exactly when some model leads in (epoch, sequence) and all leading models agree on the price, and then a leading one |
| `EntryMeaningV3.SelectedBreakBreaksOut` | apps/observation-edge/src/rd-entry-matcher-v3.ts:49-56 | a selected break has its trigger above the reference high for long and below the reference low for short |
| `EntryMeaningV3.SeededMeans` | apps/observation-edge/src/rd-entry-arbitrator-v3.ts:409-432 | with an opened seed only the seeded close counts, exactly when the zone was engaged by it, and the selection bears the seed's revision and time |
| `EntryEvaluatorV3.EvaluateWithoutSeed` | apps/observation-edge/src/rd-entry-arbitrator-v3.ts:370-407 | match, arbitrate and validate give a result exactly on settled inputs, and then the decided, valid one |
| `EntryEvaluatorV3.CheckerAccepts` | apps/observation-edge/src/rd-entry-domain-v3.ts:829-1200 | once every evidence record is valid, the whole evaluation graph is |
| `EntryEvaluatorV3.MatchesMeetChecker` | apps/observation-edge/src/rd-entry-matcher-v3.ts:254-465 | every pair the matcher emits has a valid candidate and link, and its evidence is valid exactly when its own proof is settled |
| `EntryMatcherV3.BocMeetsChecker` | apps/observation-edge/src/rd-entry-matcher-v3.ts:254-335 | a break-of-candle match always passes the record validators |
| `EntryMatcherV3.CloseMeetsChecker` | apps/observation-edge/src/rd-entry-matcher-v3.ts:337-393 | a close match passes them if and only if the bar closed by the observation |
| `EntryMatcherV3.FlipMeetsChecker` | apps/observation-edge/src/rd-entry-matcher-v3.ts:395-465 | a flip match passes them if and only if the proof carries contact and recross candles |
| `EntryEvaluatorV3.UnsettledExample` | apps/observation-edge/src/rd-entry-domain-v3.ts:534-658 | an input that the input validator accepts and that is not settled |
| `EntryArbitratorV3.Arbitrate` | apps/observation-edge/src/rd-entry-arbitrator-v3.ts:179-368 | accepts exactly consistent records; the selection is the one the order-free specification describes, or the opened selection unchanged |
| `EntryArbitratorV3.DecisionUnique` | apps/observation-edge/src/rd-entry-arbitrator-v3.ts:179-368 | the specification determines the selection, so any two selections for the same sets are equal |
| `EntryArbitratorV3.BestPairs` | apps/observation-edge/src/rd-entry-arbitrator-v3.ts:249-258 | one pair per candidate with eligible evidence, each with that candidate's first evidence |
| `EntryArbitratorV3.GroupEligible` | apps/observation-edge/src/rd-entry-arbitrator-v3.ts:237-248 | the grouped map holds exactly the exact-eligible evidence of each candidate; evidence of an unknown candidate refuses |
| `EntryEvaluatorV3.SelectionMinimal` | apps/observation-edge/src/rd-entry-arbitrator-v3.ts:309-368 | a canonical choice has the least (trigger epoch, sequence) of all exact-eligible pairs, and models tied there agree on the price |
| `EntryEvaluatorV3.ArbitrationIgnoresOrder` | apps/observation-edge/src/rd-entry-arbitrator-v3.ts:179-368 | permuting or repeating candidates and evidence changes neither acceptance nor selection |
| `EntryEvaluatorV3.EligibleExactly` | apps/observation-edge/src/rd-entry-arbitrator-v3.ts:45-147 | a matched, exact pair of a valid bundle is eligible if and only if it is a close or not on the confirmed plane |
| `EntryEvaluatorV3.OneCandleNeverEligible` | apps/observation-edge/src/rd-entry-matcher-v3.ts:70-100 | a one-candle bundle has no eligible pair |
| `EntryEvaluatorV3.CohortNeverDecides` | apps/observation-edge/src/rd-entry-arbitrator-v3.ts:298-308 | so the arbitrator's cohort branch never changes the decision |
| `Indexing.MergeImmutable` | apps/observation-edge/src/rd-entry-arbitrator.ts:147-162 | the loop that files items by id refuses exactly on two different items under one id |
| `Indexing.MergeIndexes` | apps/observation-edge/src/rd-entry-arbitrator.ts:147-162 | what it files is an index of the set of items, whatever their order and repetition |
| `TelemetryTheorems.LogIntegrity` | apps/execution-edge/src/telemetry-repository-v2.ts:35-155 | after every interleaving of loads, batches and rereads, each account's receipts are exactly 1..last request and its events exactly 1..last event, and no row is without an account |
| `TelemetryTheorems.HistoryIsFixed` | apps/execution-edge/src/telemetry-repository-v2.ts:78-120 | between any two points of a run rows are only added, counters never fall, and scope, identity and registration stay |
| `TelemetryTheorems.ReplayIsExact` | apps/execution-edge/src/telemetry-repository-v2.ts:122-155 | in every later state a resent request gets the same response and changes nothing, and a different body under its number, identity and registration conflicts |
| `TelemetryTheorems.AppliedIsReplayed` | apps/execution-edge/src/telemetry-repository-v2.ts:139-155 | from the moment a batch has applied, its answer read or not, every later resend gets the response of the batch, the tables stay, and another body conflicts |
| `TelemetryTheorems.RunKeeps` | apps/execution-edge/src/telemetry-repository-v2.ts:35-155 | the table invariant, the invariant of prepared batches and the validity of every answer given hold in every reachable state |
| `TelemetryRuns.GuardMeansUnmoved` | apps/execution-edge/src/telemetry-repository-v2.ts:94-107 | when the guarded upsert succeeds, the account still stands where the batch was prepared, last event included |
| `TelemetryRuns.AppliedKeepsLog` | apps/execution-edge/src/telemetry-repository-v2.ts:93-120 | an applied batch keeps every account's log exact |
| `TelemetryRuns.InsertExtends` | apps/execution-edge/src/telemetry-repository-v2.ts:110-114 | the inserted journal is the old one plus the batch's events under consecutive numbers |
| `TelemetryTheorems.NewNeverFails` | apps/execution-edge/src/telemetry-wire-v2.ts:78-121 | a new request whose acknowledgement matches is never refused while coverage and response are derived and validated |
| `TelemetryTheorems.AnswerIsCommitted` | apps/execution-edge/src/telemetry-repository-v2.ts:35-76 | an answer read from the tables belongs to the very request that was accepted under that number |
| `TelemetryTheorems.UninterruptedAccept` | apps/execution-edge/src/telemetry-repository-v2.ts:139-155 | without interference a new request is accepted exactly when keys and deal revisions admit its events; otherwise nothing changes and storage is reported unavailable |
| `TelemetryRepository.TelemetryStore.RunBatch` | apps/execution-edge/src/telemetry-repository-v2.ts:78-120 | the four statements apply together or not at all, with the specified tables |
| `TelemetryRepository.TelemetryStore.Accept` | apps/execution-edge/src/telemetry-repository-v2.ts:139-155 | load, admission, batch and reread give the specified answer and tables in every case |
| `TelemetryDecisions.AcceptDecided` | apps/execution-edge/src/telemetry-repository-v2.ts:122-155 | acceptance decided from tables, request and clock alone: recorded and acknowledged, with the account moved on, exactly when the request is admissible and its events fit; otherwise nothing changes and the answer is the stored response or the code of the first failing condition |
| `TelemetryDecisions.AdmittedExactly` | apps/execution-edge/src/telemetry-admission-v2.ts:98-143 | a request goes on exactly when it is the account's next one, sent within thirty seconds of now, with its events numbered from the acknowledged one on; each refusal code exactly under its condition |
| `TelemetryDecisions.InsertedExactly` | apps/execution-edge/src/telemetry-repository-v2.ts:110-119 | the journal insertion succeeds exactly when event keys and numbers are free and every deal revision continues its chain |
| `TelemetryAdmission.DecideAdmission` | apps/execution-edge/src/telemetry-admission-v2.ts:98-143 | the decision with its event loop; events are new exactly when they continue the last number without gap, inside the safe integers |
| `TelemetryWire.CheckEvents` | apps/execution-edge/src/telemetry-wire-v2.ts:85-86 | accepts exactly distinct event ids and deals with valid records, and finds the highest sequence |
| `TelemetryWire.ValidateRequest` | apps/execution-edge/src/telemetry-wire-v2.ts:78-95 | accepts exactly the requests whose counters, events, coverage and digest agree |
| `TelemetryWire.CoverageMeans` | apps/execution-edge/src/telemetry-coverage-v2.ts:40-74 | up to date exactly when nothing is missing, the scan is finished and everything is acknowledged; only then a watermark |
| `TelemetryWire.CoverageDerived` | apps/execution-edge/src/telemetry-coverage-v2.ts:40-74 | coverage is derived exactly from consistent counters, and each of its four states under its own condition |
| `TelemetryDeals.DealChains` | apps/execution-edge/migrations/0004_account_telemetry_v2.sql:79-84 | in every reachable state a deal's revisions are exactly 1..current, each stored once, each naming the digest of the one before |
| `TelemetryDeals.ChainStepKeeps` | apps/execution-edge/src/telemetry-repository-v2.ts:110-119 | an applied batch extends revision chains and moves the current pointers onto their new ends |
| `FixedDecimal.SumFixed` | apps/execution-edge/src/telemetry-values-v2.ts:76-87 | succeeds exactly when every summand is valid and the absolute total is below 10^(18+scale); the text is the printed form of the exact total and reads back as it |
| `FixedDecimal.PrintParses` | apps/execution-edge/src/telemetry-values-v2.ts:76-87 | a printed total parses exactly below the bound, and then to itself |
| `FixedDecimal.ParsedIsPrinted` | apps/execution-edge/src/telemetry-values-v2.ts:50-67 | whatever parses is the printed form of its units: one spelling per value and scale |
| `TelemetryVolumes.CheckOrder` | apps/execution-edge/src/telemetry-wire-v2.ts:56 | the text subtraction rejects an order exactly when a volume is not positive, scales differ, or more is left than there was |
| `TelemetryVolumes.CheckSplit` | apps/execution-edge/src/telemetry-wire-v2.ts:76 | a reversal split is accepted exactly when both parts are positive and together the volume |
| `TelemetryVolumes.PositiveMeans` | apps/execution-edge/src/telemetry-wire-v2.ts:50 | the text test for positive decides the sign of the units |
| `TelemetryVolumes.ValidateExposure` | apps/execution-edge/src/telemetry-wire-v2.ts:53-59 | accepts exactly distinct tickets with valid volumes, orders and counts |
| `OutboxRuns.OutboxSafety` | apps/observation-edge/src/observation-outbox-dispatcher.ts:86-455 | in every reachable state lease fields are set exactly while claimed, pending has no attempts, retry one to four, and the claims handed out for a row number its attempts, at most five |
| `OutboxRuns.TerminalIsAbsorbing` | apps/observation-edge/src/observation-outbox-dispatcher.ts:86-390 | a terminal row is the same in every later state |
| `OutboxRuns.ChangesAreBounded` | apps/observation-edge/src/observation-outbox-dispatcher.ts:86-390 | over any run a row changes at most as often as its measure, never more than eleven times |
| `OutboxRuns.MeasureBounds` | apps/observation-edge/src/observation-outbox-dispatcher.ts:86-390 | the measure is at most eleven, and zero exactly for a terminal row |
| `OutboxRuns.StepDecreases` | apps/observation-edge/src/observation-outbox-dispatcher.ts:86-390 | every step leaves a row alone or lowers its measure, a claim that takes over an expired lease included |
| `OutboxRuns.AcknowledgedOnlyByHolder` | apps/observation-edge/src/observation-outbox-dispatcher.ts:301-326 | a row becomes acknowledged only through the claim that holds it, on a positive answer, before lease and candidate expire |
| `OutboxRuns.OneHolder` | apps/observation-edge/src/observation-outbox-dispatcher.ts:237-265 | no two claims hold one row |
| `OutboxRuns.GrantIsDue` | apps/observation-edge/src/observation-outbox-dispatcher.ts:174-235 | a granted claim is for a live candidate whose turn it was, and only its row carries the token |
| `OutboxRuns.ServiceWindow` | apps/observation-edge/src/observation-outbox-dispatcher.ts:186-195 | a pending or retry row can be claimed exactly from its next attempt until its expiry |
| `OutboxRuns.WaitingRowIsServed` | apps/observation-edge/src/observation-outbox-dispatcher.ts:174-235 | a claim inside that window returns that row or one whose turn comes before it |
| `OutboxRuns.LapsedLeaseIsServed` | apps/observation-edge/src/observation-outbox-dispatcher.ts:123-173 | so does a claim after a lease has run out with attempts left |
| `OutboxRuns.GrantMarksRow` | apps/observation-edge/src/observation-outbox-dispatcher.ts:174-235 | the granted row has one more attempt, the given owner and token and a lease of thirty seconds, as the claim says |
| `OutboxRuns.FinalizedStatus` | apps/observation-edge/src/observation-outbox-dispatcher.ts:237-390 | the holder's finalization gives each of the four statuses exactly under its own condition on time, attempts and answer |
| `OutboxRuns.BackoffDoubles` | apps/observation-edge/src/observation-outbox-dispatcher.ts:361-386 | a transient failure keeps the row unclaimable for 2, 4, 8 or 16 seconds; the cap of 300 is never reached |
| `OutboxRuns.FinalizedRow` | apps/observation-edge/src/observation-outbox-dispatcher.ts:237-390 | what finalization leaves besides the status: no lease, attempts and expiry as before, the acknowledgement time exactly when acknowledged, the next attempt of a retry, and every other row untouched |
| `OutboxRuns.GrantLeavesNothingStale` | apps/observation-edge/src/observation-outbox-dispatcher.ts:123-173 | after a claim batch no open row is past its expiry and no lease is over |
| `OutboxRuns.RunKeeps` | apps/observation-edge/src/observation-outbox-dispatcher.ts:86-455 | claims, tokens and rows stay consistent over every run |
| `Outbox.DeliveryTable.FindNext` | apps/observation-edge/src/observation-outbox-dispatcher.ts:186-195 | the row served next, by next attempt, creation and id; none exactly when nothing is claimable |
| `Outbox.NextExists` | apps/observation-edge/src/observation-outbox-dispatcher.ts:186-195 | there is a first claimable row exactly when there is a claimable row |
| `Outbox.DeliveryTable.ClaimNext` | apps/observation-edge/src/observation-outbox-dispatcher.ts:109-235 | expiry, lease sweep and claim as one step, with the claim returned |
| `Outbox.DeliveryTable.FinalizeDelivery` | apps/observation-edge/src/observation-outbox-dispatcher.ts:237-390 | the row changes only if it still carries the claim's lease, to the specified status, and the outcome reports it |
| `Outbox.DeliveryTable.ExpireStale` | apps/observation-edge/src/observation-outbox-dispatcher.ts:86-107 | no open row past its expiry is left, every other row is untouched, a closed row has lost its lease, and the count is the number of changed rows, zero exactly when nothing changed |
| `ProposalIngestion.ProposalStore.Ingest` | apps/observation-edge/src/execution-proposal-ingestion.ts:305-604 | without interleaved calls each outcome, each recorded incident and each table change is the specified one |
| `ProposalIngestion.ProposalStore.HighestCheckpoint` | apps/observation-edge/src/execution-proposal-ingestion.ts:199-214 | the highest checkpoint of the producer |
| `IngestionRuns.IngestionIsContiguous` | apps/observation-edge/src/execution-proposal-ingestion.ts:367-431 | in every reachable state the events and the checkpoints of a producer are exactly 1..n, whatever happens between a call's reads and its batch |
| `IngestionRuns.UninterruptedIngest` | apps/observation-edge/src/execution-proposal-ingestion.ts:305-604 | one call in one piece does what its five steps do when no other call is under way: the same tables, deliveries and answer, and storage is never unavailable |
| `IngestionRuns.IngestDecided` | apps/observation-edge/src/execution-proposal-ingestion.ts:305-604 | on reachable tables a call is decided by its number, the proposal recorded under it and the bodies recorded for its candidate: recorded, answered as before, or quarantined with one incident of the right kind and nothing else changed |
| `IngestionRuns.IngestionReplays` | apps/observation-edge/src/execution-proposal-ingestion.ts:375-383 | an answered proposal gets the same answer in every later state, and its repeat changes nothing |
| `IngestionRuns.OneBodyPerCandidate` | apps/observation-edge/src/execution-proposal-ingestion.ts:404-480 | a logical candidate never has two bodies, and exactly the stored candidates have a delivery |
| `IngestionRuns.IngestedDeliveriesAreSafe` | apps/observation-edge/src/execution-proposal-ingestion.ts:558-600 | the outbox guarantees hold of every delivery that ingestion stores |
| `IngestionRuns.RecordedCandidate` | apps/observation-edge/src/execution-proposal-ingestion.ts:558-600 | a recorded proposal whose candidate is new and emitted stores its payload and one delivery: no attempts, no lease, next attempt now, expiry 300 seconds after the observation, pending exactly while that lies ahead and expired otherwise; anything else leaves payloads and deliveries alone |
| `IngestionRuns.CommittedCandidate` | apps/observation-edge/src/execution-proposal-ingestion.ts:558-600 | the same of a batch that applies in the middle of other calls |
| `IngestionRuns.StoredCandidateIsServed` | apps/observation-edge/src/execution-proposal-ingestion.ts:494 | a candidate stored while live is served by a claim at that time, or by one for a row whose turn comes before |
| `IngestionRuns.RecordedEvent` | apps/observation-edge/src/execution-proposal-ingestion.ts:485-557 | the answer to a recorded proposal and the event, result and checkpoint rows it adds, field by field |
| `CanonicalJson.RoundTrip` | apps/execution-edge/src/signal-evidence-inbox-v1.ts:118-169 | parsing a canonical text gives the value with ordered fields exactly when nesting is at most 64 and values at most 20000, and that is the same value |
| `CanonicalJson.StringifyIffSame` | apps/execution-edge/src/canonical.ts:34-132 | two values have one canonical text if and only if they differ at most in the order of fields |
| `CanonicalJson.OrderedIffSame` | apps/execution-edge/src/canonical.ts:107-119 | sorting fields gives equal forms exactly for values that agree key by key |
| `CanonicalJson.Serialize` | apps/execution-edge/src/canonical.ts:34-126 | the printer as written gives the canonical text, and refuses exactly unsafe integers |
| `CanonicalJson.CompareCodePoints` | apps/execution-edge/src/canonical.ts:15-32 | the index loop decides the code-point order in both directions |
| `CanonicalJson.LessMeans` | apps/execution-edge/src/canonical.ts:15-32 | the order is that of the code points at the first difference, a prefix first |
| `CanonicalJson.OrderedAscends` | apps/execution-edge/src/canonical.ts:107-119 | the canonical form of an object has the same fields by strictly ascending key |
| `JsonRoundTrip.ParseOfText` | apps/execution-edge/src/signal-evidence-inbox-v1.ts:118-169 | any printed value, fields in any order, is read back exactly within the limits |
| `JsonRoundTrip.ValueReads` | apps/execution-edge/src/signal-evidence-inbox-v1.ts:135-168 | the same in the middle of a text: what follows is left unread |
| `JsonRoundTrip.TextInjective` | apps/execution-edge/src/canonical.ts:34-126 | different values print differently |
| `JsonRoundTrip.QuoteReads` | apps/execution-edge/src/signal-evidence-inbox-v1.ts:122-134 | scanning to the closing quote and decoding undoes escaping |
| `JsonRoundTrip.NumberReads` | apps/execution-edge/src/signal-evidence-inbox-v1.ts:164-166 | the number pattern reads back every safe integer |
| `JsonReader.ParseSource` | apps/execution-edge/src/signal-evidence-inbox-v1.ts:118-169 | the offset-and-counter parser computes the reading function, failure included |
| `JsonReader.Parser.Value` | apps/execution-edge/src/signal-evidence-inbox-v1.ts:135-168 | one value from the offset, as the reading function says |
| `JsonReader.Parser.CloseFrom` | apps/execution-edge/src/signal-evidence-inbox-v1.ts:122-134 | the scan finds the closing quote, stepping over escapes |
| `JsonSoundness.ParsedIsSound` | apps/execution-edge/src/signal-evidence-inbox-v1.ts:118-169 | from any text the result is well formed, within the limits, and stable under printing and parsing |
| `JsonReading.ParsesExactly` | apps/execution-edge/src/signal-evidence-inbox-v1.ts:118-169 | a text is parsed to a value if and only if it spells the value by RFC 8259, sections 2 to 7, with integers other than minus zero, no key repeats, integers are safe, nesting is at most 64 and values are at most 20000 |
| `JsonReading.TreeReads` | apps/execution-edge/src/signal-evidence-inbox-v1.ts:135-168 | any syntax tree, with its white space and escapes, is read as the value it denotes, what follows left unread |
| `JsonReading.ValueHasTree` | apps/execution-edge/src/signal-evidence-inbox-v1.ts:135-168 | whatever is read begins with a lawful syntax tree of the value returned |
| `JsonReading.BodyInPieces` | apps/execution-edge/src/signal-evidence-inbox-v1.ts:122-134 | a decoded string body is written character by character: plain, two-character escape, four hexadecimal digits in either case, or a surrogate pair |
| `JsonReading.SpellingUnique` | apps/execution-edge/src/signal-evidence-inbox-v1.ts:118-169 | a text spells at most one well-formed value |
| `JsonReading.ShortestText` | apps/execution-edge/src/canonical.ts:34-126 | no text that spells a value is shorter than its printed text |
| `JsonReading.PrintedPiece` | apps/execution-edge/src/canonical.ts:34-126 | each character is printed by one lawful spelling, with lower-case digits where it needs some |
| `JsonReading.LoneSurrogateRefused` | apps/execution-edge/src/signal-evidence-inbox-v1.ts:122-134 | the escape of a lone surrogate is refused, which is where the model departs from the code |
| `BrokerGeometry.Reconstruct` | apps/execution-edge/src/broker-geometry-reconstruction-v1.ts:187-351 | an error exactly for invalid input; otherwise mismatch, gap, missing evidence, or a match exactly when the first touch and first close give fitting numbers |
| `BrokerGeometryTheorems.MatchIsSound` | apps/execution-edge/src/broker-geometry-reconstruction-v1.ts:224-351 | a match ends exactly at the source close, starts at the first touch, stays beyond the zone without an earlier directional close, targets four times risk, and keeps all nine differences within tolerance |
| `BrokerGeometryTheorems.MatchExactly` | apps/execution-edge/src/broker-geometry-reconstruction-v1.ts:224-351 | a match if and only if, on the bars' own ticks: parties agree, bars are contiguous, the first touch opens with the engagement, the bars after it wait beyond the zone with a close not in the direction, the last closes in the direction at the source close, and all nine differences are allowed |
| `BrokerGeometryTheorems.PredicatesOnTicks` | apps/execution-edge/src/broker-geometry-reconstruction-v1.ts:248-275 | touch, directional close, waiting and invalidation in terms of open, close, high and low; a close beyond the zone against the direction waits |
| `BrokerGeometryTheorems.MatchNumbers` | apps/execution-edge/src/broker-geometry-reconstruction-v1.ts:282-291 | the numbers of a reconstruction: entry at the last close, stop one buffer beyond the engagement's extreme, target four times the risk away, on either side |
| `BrokerGeometryTheorems.RepeatedStoryMatches` | apps/execution-edge/src/broker-geometry-reconstruction-v1.ts:224-351 | on one grid, evidence that repeats the candidate's story matches with the candidate's own numbers and no divergence |
| `BrokerGeometryTheorems.EndsAtSource` | apps/execution-edge/src/broker-geometry-reconstruction-v1.ts:224-238 | the thirty-second windows and the five-minute grid leave only the source close as the end of the evidence |
| `BrokerGeometry.FindSource` | apps/execution-edge/src/broker-geometry-reconstruction-v1.ts:260-275 | the loop stops at the first close in the window that does not wait, and reports it exactly if it is directional |
| `BrokerGeometry.FindEngagement` | apps/execution-edge/src/broker-geometry-reconstruction-v1.ts:244-251 | the first bar of the window that touches the zone |
| `BrokerGeometry.CheckEvidence` | apps/execution-edge/src/broker-geometry-reconstruction-v1.ts:94-148 | accepts exactly valid bars that do not overlap, and reports a gap exactly when they are not contiguous |
| `BrokerGeometry.OnlyThisPair` | apps/execution-edge/src/broker-geometry-reconstruction-v1.ts:248-281 | no other pair of bars could reconstruct the candidate |
| `ExactPrice.TickSizeUnique` | apps/execution-edge/src/exact-price-v1.ts:16-22 | tick sizes are positive, and equal units mean equal texts |
| `ExactPrice.CeilTicks` | apps/execution-edge/src/exact-price-v1.ts:30-34 | the least number of ticks that covers the distance |
| `ExactPrice.CeilExact` | apps/execution-edge/src/broker-symbol-capability-v1.ts:95-104 | on one grid the buffer is not rounded |
| `PaperTheorems.EveryCommandCounted` | apps/observation-edge/src/index.ts:734-983 | opened, settled, duplicate and blocked add up to the number of commands |
| `PaperTheorems.StatementsWithinLimits` | apps/observation-edge/src/index.ts:775-856 | counting every allocation and every opened intent of the batch, each account stays within two percent of open risk and four positions |
| `PaperTheorems.BatchKeepsLimits` | apps/observation-edge/src/paper-readiness.ts:110-138 | the running totals keep every account within both limits |
| `PaperTheorems.BatchIsAccounted` | apps/observation-edge/src/index.ts:844-885 | the running totals are exactly those of the emitted statements |
| `PaperTheorems.OpensAreWhole` | apps/observation-edge/src/index.ts:829-888 | an opened intent comes with an allocation for each of its accounts, and no allocation comes alone |
| `PaperTheorems.SettlingIgnoresGate` | apps/observation-edge/src/index.ts:890-973 | whatever the kill switch and the force flag, the same batches fail, settlements, duplicates and conflicts are equal, and opened plus blocked is equal: the gate only moves OPEN commands between the two |
| `PaperTheorems.SettleResultAlike` | apps/observation-edge/src/index.ts:890-973 | a SETTLE ends as settled, duplicate, blocked or conflict alike, whatever was opened or blocked before it |
| `PaperTheorems.ClosedGateOpensNothing` | apps/observation-edge/src/index.ts:763-769 | a closed gate opens nothing and gives out no risk |
| `Paper.NoReasonMeans` | apps/observation-edge/src/index.ts:783-827 | an intent is admitted exactly when each of its accounts admits it |
| `Paper.Allocator.Prepare` | apps/observation-edge/src/index.ts:702-984 | the command loop with its counters, statements and maps computes the specified batch, or fails exactly when it does |
| `Paper.Allocator.OpenCommand` | apps/observation-edge/src/index.ts:735-888 | one open: conflict, duplicate, blocked for the first reason, or charged to every account |
| `Paper.Allocator.SettleCommand` | apps/observation-edge/src/index.ts:890-973 | one settlement: blocked, duplicate, conflict, written, or the exception |
| `PaperDecisions.OpenDecided` | apps/observation-edge/src/index.ts:735-888 | which counter an open moves, from the snapshot's digests, blocked intents, metrics and gate alone, with the statements it emits and the reason of a closed gate |
| `PaperDecisions.BlockedReason` | apps/observation-edge/src/index.ts:763-827 | a blocked open names the closed gate, or the obstacle of the first account that does not take it |
| `PaperDecisions.SettleDecided` | apps/observation-edge/src/index.ts:890-973 | which counter a settlement moves, from the stored digests and accounts alone, and when it fails |
| `PaperDecisions.TakesExactly` | apps/observation-edge/src/paper-readiness.ts:110-138 | an account admits an intent exactly within loss, drawdown, open-risk and position limits, the new risk included |

## Left out

- HTTP routing, authentication, headers, body streaming, Durable Object plumbing and response shaping.
- SHA-256, UUIDs and constant-time comparison.
- Unicode decoding, and non-integer numbers: the parser refuses them, the printer's output for them is not modelled.
- JsonReader.ParseSource: an escaped lone surrogate is refused, while the code returns a string that holds it; strings here are Unicode scalar values.
- Cycle detection and prototype checks of the canonical printer: values are finite trees.
- Telemetry fields that take no part in the protocol (balances, diagnostics, latest snapshots, projections): kept as one text or dropped; so are the 16 KiB and 128 KiB response limits.
- TelemetryWire.ValidateRequest: leaves out the boundary, baseline and timestamp comparisons of the validator, so the run theorems cover more requests than the code admits.
- TelemetryWire.CheckEvents: leaves out the tracking-boundary, trading-field and scale checks of a single event; volume and reversal rules are in `TelemetryVolumes`.
- TelemetryRepository.TelemetryStore.RunBatch: the receipt-claim, pointer and foreign-key triggers are not written out, because the statements of the same batch establish what they ask for.
- Outbox.DeliveryTable.FinalizeDelivery: error texts, receiver status and update times of a row are not modelled.
- ProposalIngestion.ProposalStore.Ingest: starts after proposal validation, and the recovery reads after a failed batch are modelled only as the next look at the tables; of several conflicting events an incident may name any, and in reachable tables they all have one body.
- IngestionRuns.IngestionIsContiguous: incidents are not part of the transition system, because no table refers to them.
- EntryMatcherV2.EvaluateEntryMatch: evidence groups of one candidate come in order of first appearance, not of their canonical text; the stream sorts rows by id afterwards.
- Proposal validation and candidate derivation (version 1), reviewed identities, and the wire and store files of both entry generations.
- BrokerGeometry.Reconstruct: identity digests and the reconstruction digest are not computed; tick sizes are numbers of price units, which `ExactPrice.TickSizeUnique` shows to be the same as their texts.
- Paper.Allocator.Prepare: the refusal while the ledger is not configured and storage exceptions on reads are not modelled; the reads are one snapshot, and the insertion of the statements and the ledger queries behind the metrics are not modelled.
- Readiness reports for the console, dashboards, cohort metrics, signal admission and agent sync version 1: flat checks or presentation.
