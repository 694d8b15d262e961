# Provenova: a verified model of its provenance core

Provenova records quantum runs in an append-only, hash-chained ledger, replays and scores them, checks
compliance rules over the record, signs attestations, and publishes a corpus of hardware measurements.
These Dafny modules model the parts of it that carry guarantees, and prove those guarantees.

| modules | component |
|---|---|
| `MultiIndex`, `Amplitudes`, `Statevector`, `Readout`, `Underflow`, `Sampling` | the pure-Python statevector engine, its read-out and its sampling loop |
| `CanonicalJson`, `CanonicalOrder` | canonical JSON: the text every hash is taken of |
| `Digests`, `Merkle`, `RunIdentity`, `Chain`, `Ledger` | Merkle roots, run hashes, the hash chain and the store with its triggers |
| `Predicates`, `Record`, `Compliance`, `Reconciliation`, `StaleStatus`, `Collecting`, `EvidenceOwners`, `Growth` | the compliance rule engine |
| `CorpusTable`, `CorpusLaws`, `CorpusView` | the public-corpus table and its views |
| `Metriq`, `MetriqLaws` | histories built from benchmark files under a deadline |
| `Qiskit`, `Bridge`, `Push`, `PushLaws`, `Reproduction` | circuits on their way to the server, the push/ingest protocol, and replays |
| `Attestation`, `AttestationLaws`, `CrossChecks` | signed attestations over evidence |
| `Scoring`, `ScoringLaws` | distribution scores and verdicts |
| `RateLimit` | the fixed-window limiter with pruning |
| `Doi`, `DoiLaws`, `DoiOverlap` | result cards and DOI minting |
| `Wrappers`, `Sums`, `Sorting`, `Dicts` | results and options, finite sums, stable sorting, insertion-ordered dicts |

## Assumptions

- Amplitudes, scores and times of the limiter are exact reals. `isqrt2` and the rotation phases are any numbers
  with the identities the source's constants approximate, and `root` is any function with the defining property
  of the square root.
- SHA-256 is any function from texts to digests. No function onto 64 characters is injective, so every result
  that needs different digests asks for it only on the finitely many texts that occur in its statement
  (`NoCollision`). Ed25519 is any scheme whose signatures check under the signer's public key (`Correct`).
- Qiskit's transpiler is an unknown function of the whole circuit it is given, its registers included, and the
  simulators are unknown functions of their inputs, which may raise. `remove_final_measurements` drops the classical
  bits and registers that fall idle with a measurement, as Qiskit documents; that it keeps the order of the operations
  it leaves is assumed.
- Random draws, network failures, the clock, generated ids and the order of concurrent requests are arbitrary inputs.
- A ledger workspace has one writer, whose `created_at` strictly increases (`ClockAdvances`);
  `Ledger.RecordVerifiesIff` says exactly what happens otherwise.

## Where the code differs from what it says

- Character k of an outcome key is qubit n-1-k, although the comment at
  packages/ql-core/provenova_core/simulate/pure_python.py:118 and the conventions at
  packages/ql-sdk/src/provenova/connectors/base.py:38 and packages/ql-core/provenova_core/simulate/engine.py:139
  have it the other way round (`Readout.KeyOrder`). Read-out noise is therefore drawn from the mirrored qubit's
  calibration (`Sampling.ReadoutIsMirrored`), which goes unnoticed exactly when the calibration is its own mirror
  image (`Sampling.MirroringUnnoticedIff`).
- From 40 qubits on the cutoff can drop every outcome (`Underflow.SomethingIsKeptIff`). This bounds the formula, not
  a practical run: such a vector has 2^40 amplitudes, and ingest admits ten qubits
  (packages/ql-core/provenova_core/simulate/safety.py:29).
- `verify_chain` accepts every prefix of a good chain (`Chain.TruncationAccepted`) and a last row that was
  rewritten with its chain hash (`Chain.ResealedRowNoticed`).
- The Merkle root of an odd number of leaves does not change when the last is repeated (`Merkle.OddRepeat`); which
  lists share a root is `Merkle.SameRootIff`.
- packages/ql-sdk/src/provenova/store.py:62-63 sets the gaps of a run that is already sealed, so a capture with
  gaps is never stored (`Ledger.GapsAreLost`).
- Evidence is keyed without its workspace, so one workspace's evaluation rewrites another's row
  (`EvidenceOwners.SharedCircuitRewritten`): exactly where a rule passes on one circuit or calibration of both
  (`EvidenceOwners.RewritesIff`, `EvidenceOwners.OnlySharedRewritten`).
- A rule that raises leaves evidence and alerts behind, and the worker commits them (server/app/worker.py:50-58), so a
  passing status can stand beside an open gap alert (`StaleStatus.PassWithOpenGap`, `Reconciliation.KeepsStatusIff`).
- Same-day replacement compares the date of the offered timestamp in its own offset with stored UTC dates
  (`CorpusLaws.NeverShrinksIff`), and rows of one session in the offsets they came with, so metrics can be lost
  (`CorpusLaws.NeverShrinksInSessionIff`).
- A newer benchmark measurement can lose to an older one of the same day (`MetriqLaws.NewerMeasurementIgnored`,
  `MetriqLaws.LastMeasurementShownIff`).
- Retrying a push whose hash the server recomputes differently duplicates the run (`PushLaws.RetriesDuplicate`). The
  capture that packages/ql-sdk/src/provenova/__init__.py:7 documents is one of these: its register c stays in the
  captured text and is lost at replay (`PushLaws.DocumentedCaptureDuplicates`, `PushLaws.PortableIff`).
- Result cards are evidence of type "result_card" but looked up as "card", and circuits, reproductions and workspaces
  are not looked up at all, so evidence about them is never cross-checked (`CrossChecks.SourceCrossCheckedIff`,
  `CrossChecks.ChangedCardStillVerifies`).
- The evidence root depends on the order in which evidence is fetched, which is unspecified, exactly when different
  entries share (type, id) (`AttestationLaws.OrderIgnoredIff`).
- Limiter windows above one hour are forgotten early (`RateLimit.PruningUnnoticedIff`).
- The DOI cap can be exceeded by overlapping mints of different cards (`DoiOverlap.OverlappingMintsExceedCap`): by
  one less than the requests in flight (`DoiOverlap.MintedAtMost`, `DoiOverlap.CapIsSafeIff`).

## Model

| member | source | states |
|---|---|---|
| `Statevector.Apply1qAt` | packages/ql-core/provenova_core/simulate/pure_python.py:69-73 | the tensor contraction on axis q mixes exactly the positions that differ in coordinate q of the 2 x ... x 2 view |
| `Statevector.Apply1qOnBits` | packages/ql-core/provenova_core/simulate/pure_python.py:69-73 | in flat positions: i is rewritten from i and i -/+ 2^(n-1-q), with the matrix row chosen by bit n-1-q of i |
| `MultiIndex.AxisIsBit` | packages/ql-core/provenova_core/simulate/pure_python.py:69-84 | axis q of the reshaped state is bit n-1-q of the flat position, so qubit 0 is the most significant bit |
| `MultiIndex.PartnerDistance` | packages/ql-core/provenova_core/simulate/pure_python.py:69-84 | flipping axis q moves a flat position by exactly 2^(n-1-q) |
| `Statevector.ApplyCx` | packages/ql-core/provenova_core/simulate/pure_python.py:76-84 | overwriting the control sub-view in place with its flip along the renumbered target axis is the permutation that flips the target bit where the control bit is 1 |
| `Statevector.Step` | packages/ql-core/provenova_core/simulate/pure_python.py:87-106 | one loop round gives the state that the gate gives |
| `Statevector.Run` | packages/ql-core/provenova_core/simulate/pure_python.py:87-106 | the loop computes the composition of the gates, and fails exactly when a gate name is not supported |
| `Statevector.PairwiseNorm` | packages/ql-core/provenova_core/simulate/pure_python.py:69-84 | a map that keeps the joint weight of every pair of partner positions keeps the norm of the whole vector |
| `Statevector.GateKeepsNorm` | packages/ql-core/provenova_core/simulate/pure_python.py:87-106 | each supported gate keeps the sum of squared amplitudes on every n-qubit vector |
| `Statevector.RunKeepsNorm` | packages/ql-core/provenova_core/simulate/pure_python.py:87-106 | every circuit keeps it over its whole run |
| `Statevector.OneQubitLaws` | packages/ql-core/provenova_core/simulate/pure_python.py:60-62 | H applied twice and X applied twice are the identity and SX applied twice is X, on any qubit of any state |
| `Statevector.RzLaw` | packages/ql-core/provenova_core/simulate/pure_python.py:65-66 | rotations with conjugate phases cancel on any qubit of any state |
| `Statevector.CxInvolution` | packages/ql-core/provenova_core/simulate/pure_python.py:76-84 | CX applied twice is the identity |
| `Statevector.ApplyProduct` | packages/ql-core/provenova_core/simulate/pure_python.py:69-73 | two matrices on one qubit compose to their product |
| `Statevector.DisjointGatesCommute` | packages/ql-core/provenova_core/simulate/pure_python.py:87-106 | gates on disjoint qubits commute on every n-qubit state |
| `Readout.KeyCharacter` | packages/ql-core/provenova_core/simulate/pure_python.py:109-120 | character k of an outcome key is the bit of qubit n-1-k |
| `Readout.KeyOrder` | packages/ql-core/provenova_core/simulate/pure_python.py:118 | the keys read as the comment there and the vendor connectors say exactly when n <= 1 |
| `Readout.KeyInjective` | packages/ql-core/provenova_core/simulate/pure_python.py:109-120 | different positions get different n-character keys |
| `Readout.IdealDistribution` | packages/ql-core/provenova_core/simulate/pure_python.py:109-120 | the loop reads out the entries at or above the cutoff of the final state, or the engine error |
| `Readout.DistributionEntries` | packages/ql-core/provenova_core/simulate/pure_python.py:109-120 | a key is read out exactly when its position has probability at least 1e-12, and with that probability |
| `Readout.DistributionSum` | packages/ql-core/provenova_core/simulate/pure_python.py:109-120 | for every supported circuit the read-out probabilities sum to a value in (1 - 2^n 1e-12, 1] |
| `Underflow.UniformWeights` | packages/ql-core/provenova_core/simulate/pure_python.py:69-120 | a Hadamard on every qubit gives each of the 2^n outcomes probability 2^-n |
| `Underflow.SomethingIsKeptIff` | packages/ql-core/provenova_core/simulate/pure_python.py:109-120 | every n-qubit circuit leaves some outcome to sample from exactly when n <= 39 |
| `Sampling.ReadoutFlip` | packages/ql-core/provenova_core/simulate/pure_python.py:123-141 | each character is flipped by its own draw against the rate calibrated for its place |
| `Sampling.ReadoutIsMirrored` | packages/ql-core/provenova_core/simulate/pure_python.py:123-141 | place k of a key holds the outcome of qubit n-1-k but is flipped at the rates calibrated for qubit k |
| `Sampling.MirroringUnnoticedIff` | packages/ql-core/provenova_core/simulate/pure_python.py:123-141 | for all outcomes and draws every place is read at the rates of the qubit whose bit it holds exactly when qubits q and n-1-q have the same flip chances for every q |
| `Sampling.RunCounts` | packages/ql-core/provenova_core/simulate/pure_python.py:162-182 | the loop tallies one outcome per shot, and raises exactly when a shot that did not depolarise has to choose from an empty read-out |
| `Sampling.TallyCounts` | packages/ql-core/provenova_core/simulate/pure_python.py:172-182 | each outcome is counted as often as it was drawn |
| `Sampling.OutcomesAreBits` | packages/ql-core/provenova_core/simulate/pure_python.py:172-182 | every counted outcome has the length of the read-out keys |
| `Sampling.CountsAddUp` | packages/ql-core/provenova_core/simulate/pure_python.py:172-182 | the counts add up to the number of shots |
| `CanonicalJson.TextUnique` | packages/ql-core/provenova_core/hashing.py:56-63 | no JSON text is a proper beginning of two different values: the text determines the key-sorted value |
| `CanonicalOrder.CanonicalUnambiguous` | packages/ql-core/provenova_core/hashing.py:56-63 | two JSON values have the same canonical text exactly when they are equal up to the insertion order of dicts |
| `CanonicalOrder.CanonicalTextUnambiguous` | packages/ql-core/provenova_core/hashing.py:34-63 | two Python values have the same canonical text exactly when their normal forms are equal up to insertion order |
| `CanonicalOrder.InsertionOrderIgnored` | packages/ql-core/provenova_core/hashing.py:34-63 | dicts that differ only in insertion order have the same canonical text |
| `Merkle.MerkleRoot` | packages/ql-core/provenova_core/hashing.py:76-92 | the level-by-level loop computes the recursive root |
| `Merkle.RootBinds` | packages/ql-core/provenova_core/hashing.py:76-92 | distinct leaf texts that never look like node texts are bound by the root, across lists of any two lengths |
| `Merkle.SameLengthBinds` | packages/ql-core/provenova_core/hashing.py:76-92 | lists of equal length with equal roots are equal, repeated leaves included |
| `Merkle.SameRootIff` | packages/ql-core/provenova_core/hashing.py:76-92 | two lists of leaf texts have the same root exactly when they are the same list at full width, where every odd level repeats its last node down to 2^depth leaves |
| `Merkle.FullWidthRoot` | packages/ql-core/provenova_core/hashing.py:85-86 | filling a tree up to full width changes neither its root nor the texts that are hashed |
| `Merkle.OddRepeat` | packages/ql-core/provenova_core/hashing.py:85-86 | repeating the last of an odd number of leaves keeps the root |
| `RunIdentity.ComputedVerifies` | packages/ql-core/provenova_core/hashing.py:137-181 | every document made by compute_run_hash passes verify_run_hash |
| `RunIdentity.RunHashBinds` | packages/ql-core/provenova_core/__init__.py:24-36 | two documents of any sizes that verify under one run hash have the same label to leaf map, if the texts hashed while verifying them do not collide |
| `RunIdentity.RunHashDeterminesInputs` | packages/ql-core/provenova_core/hashing.py:137-181 | recorded runs with one run hash have the same schema, circuit, compilation, backend, calibration, shots, seeds and parameters, and the same result hashes whenever they have equally many |
| `Chain.VerifyChain` | packages/ql-core/provenova_core/__init__.py:39-56 | ok exactly when every row links to the one before it; otherwise broken_at is the first row that does not |
| `Chain.BrokenIsReported` | packages/ql-core/provenova_core/__init__.py:39-56 | there is one first broken row, and it is the one reported |
| `Chain.HeadDeterminesHistory` | packages/ql-core/provenova_core/__init__.py:39-56 | two accepted row sequences with the same last chain hash have the same length and the same run hash at every position |
| `Chain.HeadsDistinct` | packages/ql-core/provenova_core/hashing.py:184-190 | the chain hashes of an accepted sequence are pairwise different |
| `Chain.HashSeparates` | packages/ql-core/provenova_core/hashing.py:184-190 | chain hashes separate any (previous, run) pairs whose texts do not collide |
| `Chain.EditedRunBreaksThere` | packages/ql-core/provenova_core/__init__.py:39-56 | editing one run hash of a good chain makes that row the first broken one and the one that verify_chain reports |
| `Chain.ResealedRowNoticed` | packages/ql-core/provenova_core/__init__.py:39-56 | a row edited together with its own chain hash is noticed exactly when it is not the last |
| `Chain.RemovedRowNoticed` | packages/ql-core/provenova_core/__init__.py:39-56 | a removed row is noticed exactly when it is not the last |
| `Chain.InsertedRowNoticed` | packages/ql-core/provenova_core/__init__.py:39-56 | a well-linked inserted row is noticed exactly when it is not at the end |
| `Chain.TruncationAccepted` | packages/ql-core/provenova_core/__init__.py:39-56 | every prefix of an accepted chain is accepted: the verifier never looks at chain_head |
| `Ledger.StoredOnce` | packages/ql-core/provenova_core/content_address.py:47-137 | get-or-create keeps every stored row, ends with a row for every wanted key, and never holds two rows of one key |
| `Ledger.Store.Update` | packages/ql-core/provenova_core/immutability.py:37-43 | an UPDATE of a run is refused exactly when its status is completed or failed |
| `Ledger.Store.GetOrCreateRow` | packages/ql-core/provenova_core/content_address.py:76-99 | looks a row up by key and adds it only when it is missing |
| `Ledger.Store.Record` | packages/ql-core/provenova_core/reproduce/runner.py:93-176 | storing the rows, inserting the run, sealing it and moving the head is the one transition of the model |
| `Ledger.Store.Reproduce` | packages/ql-core/provenova_core/reproduce/runner.py:179-256 | a reproduction records a run and an event that names the original |
| `Reproduction.ReproducedInputs` | packages/ql-core/provenova_core/reproduce/runner.py:191-223 | of a stored circuit of any size with exact arities, a reproduction hashes the circuit and shots of the original, its seeds exactly when they are not zero, and its parameters exactly when it ran on the same engine at level 1 |
| `Reproduction.ReproducedCompilation` | packages/ql-core/provenova_core/reproduce/runner.py:191-223 | from a restorable circuit at level 1 with a non-zero seed it hashes the same transpiled circuit |
| `Ledger.Store.Ingest` | server/app/services/ingest.py:23-28 | a claimed run hash that the workspace holds is answered without recording |
| `Ledger.Store.Capture` | packages/ql-sdk/src/provenova/store.py:39-67 | a capture is stored exactly when it has no gaps: they are written after the seal, so the trigger refuses them and everything rolls back |
| `Ledger.GapsAreLost` | packages/ql-sdk/src/provenova/store.py:62-64 | a capture with gaps leaves every database as it was |
| `Ledger.LedgerSafety` | packages/ql-core/provenova_core/reproduce/runner.py:38-176 | over any sequence of recordings, reproductions, ingests and raw changes: chains verify, heads match, run hashes verify, and every table only grows at its end |
| `Ledger.StoreSafety` | packages/ql-core/provenova_core/__init__.py:39-56 | the same for an initially empty store with the real hash functions in place |
| `Ledger.RecordVerifiesIff` | packages/ql-core/provenova_core/__init__.py:43-49 | with any clock, recording leaves the chain verifying exactly when the new run does not sort before the last one |
| `Predicates.ResolvePath` | server/app/services/compliance/rule_engine.py:63-76 | the walk along a path gives the declarative lookup, null when anything is missing |
| `Predicates.ResolveAlternation` | server/app/services/compliance/rule_engine.py:87-97 | the first alternative that resolves to something, else null |
| `Predicates.EvaluatePredicate` | server/app/services/compliance/rule_engine.py:110-144 | the recursive interpreter agrees with the declarative meaning, errors included |
| `Predicates.MatchesMonotone` | server/app/services/compliance/rule_engine.py:110-144 | counting over more items never counts fewer |
| `Compliance.Engine.UpsertEvidence` | server/app/services/compliance/rule_engine.py:339-374 | an evidence row found under its key keeps its owner and gets the new hash and value |
| `Compliance.Engine.Open` | server/app/services/compliance/rule_engine.py:428-462 | refreshes the open alert of a key, or adds one |
| `Compliance.Engine.Resolve` | server/app/services/compliance/rule_engine.py:465-484 | resolves every open alert of a key in place and no other |
| `Compliance.Engine.EvaluateRule` | server/app/services/compliance/rule_engine.py:377-420 | counts passing rows, lists aged ones and upserts evidence for exactly the passing ones, up to the row whose predicate raises |
| `Compliance.Engine.Evaluate` | server/app/services/compliance/rule_engine.py:511-607 | the control loop writes the evidence, alerts and status of the specification; when a rule raises, what was written before it stays and the status does not move |
| `Compliance.Engine.EvaluateRequest` | server/app/services/compliance/rule_engine.py:610-620 | one framework after another until a rule raises; the session is then rolled back, or committed as the worker does |
| `Reconciliation.OneOpenAlways` | server/app/services/compliance/rule_engine.py:428-484 | in every reachable state, those left by a rule that raised included, at most one alert is open per workspace, framework, control and kind |
| `Reconciliation.AlertsMatchResults` | server/app/services/compliance/rule_engine.py:511-575 | after an evaluation the gap alert of every control evaluated before a raise is open exactly when a rule of it fails, its drift alert exactly when a row aged out |
| `Reconciliation.AlertsBehindStay` | server/app/services/compliance/rule_engine.py:511-575 | the alerts of the control in which a rule raised and of those behind it stay as they were |
| `Reconciliation.StatusMatchesGaps` | server/app/services/compliance/rule_engine.py:584-588 | when no rule raised the status is "pass" exactly when no control has an open gap alert |
| `Reconciliation.RaisedIff` | server/app/services/compliance/rule_engine.py:377-420 | an evaluation is cut short exactly when a rule of some control has an unknown source or a predicate that raises on a row it is about |
| `Reconciliation.DoneIff` | server/app/services/compliance/rule_engine.py:511-575 | a control is completed exactly when no rule of it or of a control before it raises |
| `Reconciliation.StatusMatchesIff` | server/app/services/compliance/rule_engine.py:511-588 | an evaluation makes status and gap alerts match, whatever was there before, exactly when no rule of any control raises |
| `Reconciliation.KeepsStatusIff` | server/app/worker.py:46-60 | a committed evaluation keeps every matching status exactly when no rule raises, or one of the first control does |
| `StaleStatus.PassWithOpenGap` | server/app/worker.py:46-60 | a run of the worker over a workspace whose retention columns change that ends with a passing status beside an open gap alert |
| `Reconciliation.EvaluationIsIdempotent` | server/app/services/compliance/rule_engine.py:511-607 | evaluating an unchanged record again changes no evidence, alert or status, also when a rule raises |
| `Reconciliation.RequestIsIdempotent` | server/app/services/compliance/rule_engine.py:511-620 | nor does repeating a request over any number of enabled frameworks, wherever a rule raises and whether the raise is rolled back or committed |
| `Reconciliation.OtherAlertsUntouched` | server/app/services/compliance/rule_engine.py:428-484 | alerts of other workspaces and frameworks stay as they were |
| `Collecting.WrittenIff` | server/app/services/compliance/rule_engine.py:377-420 | evidence is written under a key exactly when a rule with its ids passes on a row about its record and nothing before that row raises |
| `EvidenceOwners.EvidenceKeepsFirstOwner` | server/app/services/compliance/rule_engine.py:350-374 | evidence is keyed without a workspace: the first collecting workspace stays its owner while later evaluations rewrite hash and value |
| `EvidenceOwners.OwnerIff` | server/app/services/compliance/rule_engine.py:350-374 | a written row belongs to the evaluating workspace exactly when its key was free or already its own |
| `EvidenceOwners.RowChangesIff` | server/app/services/compliance/rule_engine.py:350-374 | a collected row changes exactly when the last write under its key brings another hash or value |
| `EvidenceOwners.OnlySharedRewritten` | server/app/services/compliance/rule_engine.py:166-235 | in every reachable state an evaluation rewrites rows of other workspaces only about shared circuits and calibrations, never about runs, results, cards, reproductions or workspaces |
| `EvidenceOwners.RewritesIff` | server/app/services/compliance/rule_engine.py:200-213 | of two workspaces the second rewrites evidence of the first exactly when, before anything raises for either, a rule passes on one circuit or calibration that both have runs of |
| `EvidenceOwners.SharedCircuitRewritten` | server/app/services/compliance/rule_engine.py:200-205 | two concrete workspaces whose runs share a circuit: one evidence row, owned by the first, that ends up holding a field of the run of the second |
| `Growth.RuleMonotone` | server/app/services/compliance/rule_engine.py:377-420 | for rules on runs, results and reproductions the passing count never falls as the record grows, so a passing rule stays passing |
| `Growth.WorkspaceRuleMonotone` | server/app/services/compliance/rule_engine.py:110-144 | the same for workspace rules that count reproductions with >= or > |
| `Growth.WorkspaceNeverAges` | server/app/services/compliance/rule_engine.py:307-327 | evidence without a calibration is compared with its own instant and never ages |
| `CorpusTable.Corpus.InsertSnapshot` | server/app/services/corpus_sync.py:57-71 | inserts exactly when the (provider, backend, hash) key is free |
| `CorpusTable.Corpus.DeleteSuperseded` | server/app/services/corpus_sync.py:163-176 | deletes exactly the earlier collector rows of the device, source and day whose metrics the offered row covers |
| `CorpusTable.Corpus.AddRows` | server/app/services/corpus_sync.py:150-178 | the loop adds the offers in turn and counts the new ones |
| `CorpusTable.Corpus.SyncBundled` | server/app/services/corpus_sync.py:181-207 | the two loops delete the stale bundle rows and add the missing wanted ones, and report both numbers |
| `CorpusLaws.AlwaysUnique` | server/app/services/corpus_sync.py:150-207 | (provider, backend, hash) stays unique over any interleaving of syncs and collections |
| `CorpusLaws.SyncReaches` | server/app/services/corpus_sync.py:181-207 | after a sync every wanted key is present and every bundle row of an owned source is wanted |
| `CorpusLaws.SyncRemovesOnlyStale` | server/app/services/corpus_sync.py:181-207 | a sync removes only stale bundle rows |
| `CorpusLaws.SyncIsIdempotent` | server/app/services/corpus_sync.py:181-207 | a second sync does nothing |
| `CorpusLaws.CollectorRowsSurviveSyncs` | server/app/services/corpus_sync.py:188-194 | no interleaving of syncs and plain collections removes a collector row |
| `CorpusLaws.AddAllKeepsBundleRows` | server/app/services/corpus_sync.py:163-176 | collections never remove a bundle row |
| `CorpusLaws.NeverShrinksIff` | server/app/services/corpus_sync.py:163-176 | same-day replacement of stored rows never loses a metric held for a (device, source, day) exactly when the date of the offered timestamp, in its own offset, is its UTC date, or the offered row names no source, or has no metric besides it |
| `CorpusLaws.NeverShrinksInSessionIff` | server/app/services/corpus_sync.py:163-176 | of rows added in the same session, which are compared in their own offsets, it never loses one exactly when the offered row names no source or has no metric besides it |
| `CorpusLaws.CollectionNeverShrinks` | server/app/services/corpus_sync.py:150-178 | a whole collection of rows dated in UTC never loses one |
| `CorpusView.MergedDevices` | packages/ql-crawler/provenova_crawler/corpus.py:152-196 | the in-place fold over the sorted rows computes the fold of the specification |
| `CorpusView.ShowsNewest` | packages/ql-crawler/provenova_crawler/corpus.py:175-196 | each metric shows the value, date and source of the greatest row (date, metric count, id) that carries it |
| `CorpusView.ShowsIffCarried` | packages/ql-crawler/provenova_crawler/corpus.py:175-196 | a device shows a metric exactly when one of its rows carries it non-null |
| `CorpusView.FetchOrderIgnored` | packages/ql-crawler/provenova_crawler/corpus.py:167-196 | with unique ids the view does not depend on the order rows are fetched in |
| `CorpusView.SnapshotsAddUp` | packages/ql-crawler/provenova_crawler/corpus.py:178-196 | every device is listed once and the snapshot counts add up to the number of rows |
| `CorpusView.Leaderboard` | packages/ql-crawler/provenova_crawler/corpus.py:211-233 | the listing is the sorted standings with ranks 1 to n |
| `CorpusView.LeaderboardRanks` | packages/ql-crawler/provenova_crawler/corpus.py:211-233 | it lists exactly the devices that have the metric, best value first |
| `Metriq.BuildSeries` | server/app/services/metriq.py:100-166 | the loop with its break publishes what was collected before the first late device boundary, and says whether that was everything |
| `MetriqLaws.DeadlineCutsWholeDevices` | server/app/services/metriq.py:116-121 | a cut-short build publishes a prefix of the full build, with exactly the devices that occur before the cut and identical histories |
| `MetriqLaws.DayIsItsMeasurements` | server/app/services/metriq.py:135-147 | each (device, day) entry is the merge of exactly its own measurements, in file order |
| `MetriqLaws.CapturedIsLatest` | server/app/services/metriq.py:144 | a day is dated by its latest measurement |
| `MetriqLaws.MetricsHaveProvenance` | server/app/services/metriq.py:137-147 | within a day the metric keys other than n_qubits are the provenance keys, and are the metrics measured |
| `MetriqLaws.MetricIsDecided` | server/app/services/metriq.py:137-143 | in any file order a metric shows the last measurement that nothing earlier in the day postdates, or its first one when there is none |
| `MetriqLaws.ShownIffDecides` | server/app/services/metriq.py:137-143 | of the measurements of a day, which come from different files, exactly the deciding one is shown |
| `MetriqLaws.FilesGiveDistinctPaths` | server/app/services/metriq.py:108-147 | the measurements of a day come from different files when the paths built from are different |
| `MetriqLaws.LastMeasurementShownIff` | server/app/services/metriq.py:137-143 | the last measurement is the one the day shows exactly when nothing earlier in the day postdates it or it is the only one |
| `MetriqLaws.LastMeasurementShown` | server/app/services/metriq.py:137-143 | with timestamps that never go back every metric shows its last measurement |
| `MetriqLaws.NewerMeasurementIgnored` | server/app/services/metriq.py:137-143 | a concrete day that shows an older measurement and not the newer one |
| `Qiskit.QiskitToIr` | packages/ql-core/provenova_core/simulate/bridge.py:15-29 | keeps the gates and drops measurements and barriers |
| `Qiskit.PreparedIsPortable` | packages/ql-core/provenova_core/simulate/engine.py:80-97 | the transpiler is given the same circuit at capture and at replay exactly when the captured one has the default qubit register and no phase, unconditioned gates, only final measurements and barriers, and no classical bit or register that is not measured into |
| `Qiskit.DocumentedCapture` | packages/ql-sdk/src/provenova/__init__.py:5-9 | the capture shown there is not such a circuit: nothing is measured into its register c |
| `Qiskit.PlainCapture` | scripts/release.py:151 | without that register it is |
| `Bridge.AssertSafeCircuit` | packages/ql-core/provenova_core/simulate/safety.py:42-81 | accepts exactly the bounded circuits of allowed gates on distinct qubits in range, and returns their canonical JSON |
| `Bridge.IrRoundTrip` | packages/ql-core/provenova_core/simulate/bridge.py:73-85 | every circuit written as JSON reads back unchanged, and passes the check exactly when it is safe |
| `Bridge.SafeMeansSafeIr` | packages/ql-core/provenova_core/simulate/safety.py:42-81 | what passes the check is safe, and checking its canonical form again changes nothing |
| `Bridge.DictToIr` | packages/ql-core/provenova_core/simulate/bridge.py:81-85 | reads back the circuit a well-typed dict describes, checked or stored |
| `Bridge.QiskitFromIr` | packages/ql-core/provenova_core/simulate/bridge.py:35-70 | builds exactly when every gate is in the builder table with operands in range, and keeps a circuit of exact arities gate by gate, whatever its size |
| `Bridge.RebuiltIsSame` | packages/ql-core/provenova_core/simulate/bridge.py:15-70 | a circuit of any size whose gates have exact arities and distinct qubits in range gives back, rebuilt in Qiskit, the same intermediate form and reaches the transpiler as it is |
| `Bridge.ClampShots` | packages/ql-core/provenova_core/simulate/safety.py:84-90 | the clamped count is in range, a count in range is kept, others move to the nearer end, a TypeError or ValueError of int() gives 1024, and only its OverflowError for an infinity gets through |
| `Push.Hub.GetOrCreateBackend` | packages/ql-core/provenova_core/content_address.py:14-44 | the row stored first for a vendor and name stays |
| `Push.Hub.Materialize` | server/app/services/ingest.py:23-78 | lookup by claim, safety check, rebuild, backend row and recording make one delivery of the model, and an error while executing the circuit leaves the server as it was |
| `Push.PushRuns` | packages/ql-sdk/src/provenova/sync/pusher.py:15-41 | the loop over the runs, with its early abort and dry run, makes one session of the model |
| `PushLaws.RecomputedIff` | server/app/services/ingest.py:30-70 | the server recomputes the claimed run hash exactly when shots and seeds survive the "or" defaults, the backend identity is the same, and the text of the transpiled circuit and the counts hash to the same |
| `PushLaws.PortableIff` | server/app/services/ingest.py:30-70 | with a transpiler that tells the two circuits apart, a capture with its counts is recomputed to its own hash exactly when it is portable |
| `PushLaws.PortableRecomputes` | packages/ql-sdk/src/provenova/store.py:99-128 | a restorable capture, compiled for its backend row, with counts retained, a shot and no zero seed is recomputed to its own hash |
| `PushLaws.PortableCapturesSettle` | server/app/services/ingest.py:23-78 | a ledger of such captures is settled on every server whose backend rows have the same identities and whose engine can replay them |
| `PushLaws.ExactlyOnce` | server/app/services/ingest.py:23-28 | however often and in whatever order settled bundles arrive, each delivered hash is stored once and no other hash gains a run |
| `PushLaws.RetriesDuplicate` | server/app/services/ingest.py:23-28 | when the recomputed hash differs from the claim, every retry adds a run |
| `PushLaws.UnrestorableDuplicates` | server/app/services/ingest.py:23-70 | every retry of a capture that is not restorable adds a run, on every server and under every backend row |
| `PushLaws.DocumentedCaptureDuplicates` | packages/ql-sdk/src/provenova/__init__.py:5-9 | so does every retry of the documented capture |
| `PushLaws.RetryHarmlessIff` | server/app/services/ingest.py:23-28 | a second delivery adds no run exactly when the bundle is refused or the recomputed hash is the claimed one |
| `PushLaws.PushedAtMostOnce` | packages/ql-sdk/src/provenova/sync/pusher.py:15-41 | over any pushes with lost requests, lost replies, refusals and aborts no local run is on the server twice |
| `PushLaws.CompletePush` | packages/ql-sdk/src/provenova/sync/pusher.py:15-41 | after a push that reports neither abort nor failure every run it was given is on the server exactly once |
| `PushLaws.ReliablePushCompletes` | packages/ql-sdk/src/provenova/sync/pusher.py:15-41 | over a network that loses and refuses nothing a push of bundles the server accepts reports neither |
| `PushLaws.DeliverIsLedgerStep` | server/app/services/ingest.py:40-71 | on the ledger a delivery is one ingest step or none |
| `AttestationLaws.RootIgnoresOrder` | server/app/services/attestation/signing.py:79-87 | with distinct (type, id) pairs the evidence root does not depend on the order of the evidence |
| `AttestationLaws.OrderIgnoredIff` | server/app/services/attestation/signing.py:79-87 | every permutation of the evidence is sorted the same exactly when no two different entries share (type, id) |
| `AttestationLaws.EvidenceRootIff` | server/app/services/attestation/signing.py:58-66 | entry lists of equal length have equal roots exactly when they pin the same evidence, position by position |
| `AttestationLaws.PairRootIff` | server/app/api/v1/compliance.py:114-117 | two entries about one record, as two controls leave them, have the same root in both orders exactly when they pin the same |
| `AttestationLaws.RootPinsEvidence` | server/app/services/attestation/signing.py:58-66 | entry lists of equal length with equal roots pin the same evidence, position by position |
| `Attestation.FindJwk` | server/app/services/attestation/signing.py:145-149 | the first key with the kid |
| `Attestation.VerifyEnvelope` | server/app/services/attestation/signing.py:152-210 | valid exactly when the signature holds and the statement is neither expired nor revoked |
| `Attestation.LiveHashesFor` | server/app/api/v1/public.py:234-254 | the current content hash of each record that is looked up; evidence of other types is not |
| `CrossChecks.NoticeableIff` | server/app/api/v1/public.py:234-254 | some change of the records makes an entry fail exactly when its type is run, result, calibration_snapshot or card |
| `CrossChecks.SourceCrossCheckedIff` | server/app/services/compliance/rule_engine.py:152-160 | of the sources a rule can have, exactly run, result and calibration leave evidence that is cross-checked |
| `CrossChecks.UncheckedAlwaysVerifies` | server/app/services/attestation/signing.py:298-355 | an attestation over other evidence verifies exactly until it expires or is revoked, whatever the records hold |
| `CrossChecks.ChangedCardStillVerifies` | server/app/api/v1/public.py:249-252 | an attestation over a result card still verifies after the card has changed |
| `Attestation.VerifyAttestation` | server/app/services/attestation/signing.py:298-355 | valid exactly when the envelope is, the stored entries have the signed root and no live hash differs |
| `Attestation.Registry.Create` | server/app/services/attestation/signing.py:217-279 | stores one signed row over the sorted evidence |
| `Attestation.Registry.RevokeRow` | server/app/services/attestation/signing.py:358-363 | sets the revoked flag of one row |
| `Attestation.Registry.Verify` | server/app/api/v1/public.py:257-267 | the endpoint verifies the stored row against the live records |
| `AttestationLaws.RowStays` | server/app/services/attestation/signing.py:298-363 | later events leave the evidence of a row pinned and move nothing but its revoked flag |
| `AttestationLaws.VerifiesUntilExpiredOrRevoked` | server/app/services/attestation/signing.py:217-355 | an attestation issued on honest evidence verifies after any later events exactly until it expires or is revoked |
| `AttestationLaws.NeverAfterRevocation` | server/app/services/attestation/signing.py:358-363 | once revoked it never verifies again |
| `Scoring.SortedSet` | packages/ql-core/provenova_core/reproduce/scoring.py:17-18 | the support is listed once per key |
| `Scoring.CauchySchwarz` | packages/ql-core/provenova_core/reproduce/scoring.py:21-30 | the Cauchy-Schwarz inequality for the sums the two scores are made of |
| `ScoringLaws.ScoreBounds` | packages/ql-core/provenova_core/reproduce/scoring.py:21-30 | for normalised distributions 1 - BC <= TVD and TVD^2 + BC^2 <= 1 |
| `ScoringLaws.ClampIsIdle` | packages/ql-core/provenova_core/reproduce/scoring.py:26-30 | the fidelity is BC^2 in [0, 1]: the clamp never changes it |
| `ScoringLaws.FullFidelityIff` | packages/ql-core/provenova_core/reproduce/scoring.py:26-30 | fidelity 1 exactly for equal distributions |
| `ScoringLaws.NoFidelityIff` | packages/ql-core/provenova_core/reproduce/scoring.py:26-30 | fidelity 0 exactly for distributions with disjoint support |
| `ScoringLaws.ScorePair` | packages/ql-core/provenova_core/reproduce/scoring.py:68-101 | reproducible or drifted forces TVD^2 <= 0.1 (0.01 for reproducible), irreproducible forces (1 - TVD)^2 < 0.7 |
| `RateLimit.Limiter.Prune` | server/app/ratelimit.py:39-46 | at most once a minute forgets exactly the windows that started more than an hour ago |
| `RateLimit.Limiter.Register` | server/app/ratelimit.py:49-64 | one hit: the new window and the decision with its Retry-After |
| `RateLimit.PruningUnnoticed` | server/app/ratelimit.py:39-64 | for requests in time order and windows up to an hour decisions and Retry-After are those of a limiter that never prunes |
| `RateLimit.PruningUnnoticedIff` | server/app/ratelimit.py:39-64 | this holds for all such requests exactly when the windows are at most 3600 s |
| `RateLimit.AtMostTwiceTheLimit` | server/app/ratelimit.py:49-64 | no half-open interval of one window length admits more than twice the limit of a key |
| `RateLimit.WaitingIsEnough` | server/app/ratelimit.py:49-64 | a refused client that waits its Retry-After is admitted, whatever other keys do meanwhile |
| `Doi.Cards.PublishCard` | server/app/services/cards.py:81-125 | publishing makes the card public and mints at most one DOI, and is one whole request of the model |
| `Doi.Cards.TryMint` | server/app/services/cards.py:115-125 | mints exactly when the month is below the cap and the provider registers |
| `Doi.Cards.CountThisMonth` | server/app/services/limits.py:49-70 | counts the minted audit rows of the workspace and month |
| `Doi.Cards.MintDoi` | server/app/services/cards.py:128-170 | the explicit mint of a public card is one whole request of the model |
| `Doi.Cards.UnpublishCard` | server/app/services/cards.py:173-180 | hides the card and keeps its DOI |
| `DoiLaws.OneDoiPerCard` | server/app/services/cards.py:107-125 | over any interleaving each card is minted at most once, its DOI never changes, and every registration is accounted for |
| `DoiLaws.RegisteredOnce` | server/app/services/cards.py:118-125 | while no transaction is rolled back the provider registers at most one DOI per card |
| `DoiLaws.CapNeverExceeded` | server/app/services/limits.py:73-83 | with requests run one after another no workspace mints more than its cap in a month, across month ends and republishing |
| `DoiOverlap.MintedAtMost` | server/app/services/limits.py:73-83 | over every interleaving with at most k requests of a workspace in flight it mints at most cap + k - 1 DOIs in a month, and none under a cap of zero |
| `DoiOverlap.OverlappingMintsExceedCap` | server/app/api/v1/runs.py:128-155 | with one mint left, k overlapping mints of different cards pass the same quota check and end k - 1 above the cap |
| `DoiOverlap.BoundReached` | server/app/api/v1/runs.py:128-155 | for every cap and k some run from a fresh start reaches cap + k - 1 |
| `DoiOverlap.CapIsSafeIff` | server/app/services/limits.py:73-83 | all runs with at most k requests in flight keep the cap exactly when k <= 1 or the cap is zero |

## Left out

- floating point: rounding and the printing of floats are not modelled; `repr12` in `CanonicalJson` and `round` in
  `Metriq` stand for the printed and rounded values.
- text encodings: canonical JSON is a sequence of characters; UTF-8 and lone surrogates are not modelled.
- `_normalize` of dict keys that are not strings, and of NaN or infinities inside keys.
- Bool and number values nested in lists compare structurally in the predicate interpreter; a path is a list of
  attribute names, already split.
- wall-clock columns (`last_evaluated_at`, `started_at`, `finished_at`) and audit rows other than mints.
- record_run's simulated counts, metrics and calibration defaults: only what is hashed or looked up is recorded.
- Ledger.Store.Record: the columns of a seal are one value, because the source writes them in one flush.
- Chain.VerifyChain: takes the rows in ledger order; `Ledger.LedgerOf` is the query that orders them.
- Push.Hub.Materialize: of the errors that are answered with 422, those of the safety check and of executing the circuit
  are modelled; malformed bundles and errors of the database are not.
- Bridge.DictToIr: asks for a dict whose names, qubits and parameters have the right types; dict_to_ir checks no types,
  and what it builds from other dicts is not modelled.
- Ledger.Store.Reproduce: keeps the invariants for any recording; what a reproduction takes over from the original is
  `Reproduction.ReproducedInputs`. Reproducing on another backend is left out.
- Metriq.BuildSeries: path parsing and device names are string tables; a file comes with its device and benchmark.
- CorpusView.Leaderboard: asks for values that Python's sort can compare, all numbers or all strings; the `period`
  filter and devices without a date are left out.
- Sampling.RunCounts: the depolarising probability of a circuit is part of the arbitrary draws.
- ScoringLaws.ScorePair: the Jensen-Shannon divergence and the bootstrapped interval are not modelled; the upper end of
  the interval is an input.
- Doi.Cards.PublishCard: card summaries, slugs, local identifiers and the provider's hide call are left out; a
  provider that gives local ids only is one that registers no DOI.
- RateLimit.Limiter.Register: the enabled switch and the lock around the counters are left out.
- `comparable_pairs`, `device_timeseries`, `circuit_metrics`, badges, citations, plans and licence tables: straight-line
  code or table lookups whose properties can be read off their bodies.
- vendor connectors, drift simulation, HTTP routes, templates, mail and the command line.
- retention jobs, migrations and the maintenance functions that drop the triggers.
