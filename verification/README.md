# AutoDistill in Dafny

A Dafny model of the parts of this repository whose behaviour is branching, state and arithmetic,
with proofs of what they promise. `dafny verify dfyconfig.toml` checks everything.

## What is modelled

**The AutoDistill pipeline** (`src/souplite/autodistill/`).

- `Capture`, `CaptureContract`, `Ranking`, `Reals`, `TailKl`: a capture row from teacher logits (softmax, top-k
  union the target, residual tail, entropy), the contract every row meets, and the forward divergence with one
  coarse tail bucket. Numbers are exact reals; `exp` and `ln` are parameters of type `Math` with the laws
  exp > 0, exp and ln inverse, ln of a product, ln x <= x - 1.
- `CaptureTrajectory`, `MlxWorker`, `BoundExamples`: rows per target position, the two branches of the capture
  worker for an arbitrary (causal) model, and the selection of examples from the bound dataset.
- `Json`, `JsonRoundTrip`, `JsonExtension`, `CanonicalJsonl`, `Fingerprints`: canonical JSON and JSONL, from the
  sorted-key printer and the duplicate-refusing parser to the framing of a dataset of several files.
- `CaptureRows`: the one-pass check of a payload's rows. `CapturePayload`: their JSON form, and the semantic check
  that reads a payload back.
- `Publication`, `PublicationChain`, `PublicationSteps`, `PublicationLadder`, `PublicationRecovery`,
  `PublicationTogether`, `PublicationQuarantine`, `PublicationSuccess`, `PublicationReach`, `PublicationWitness`,
  `CaptureShardPublisher`: the transactional publisher. A run lists the disk after every atomic step, so a crash
  leaves one of them; the class does the same steps on a mutable disk and is proved to follow the runs. The disk
  holds all shards, transactions and quarantined directories of a root.
- `Ledger`, `Estimate`, `CaptureEstimate`: the consumption ledger, and the plan estimate against what is captured.

**Four self-contained tools**: the routing statistics of the MoE probe (`MoeStatistics`, `MoeMeasure`), the
sector-aligned parallel reader (`UnbufferedReader`), the changelog assembler (`ChangelogText`, `Changelog`,
`ChangelogProperties`, `ChangelogIdempotence`, `ChangelogOrder`, `ChangelogAssembly`) and the
module walk of the FSDP probe (`ModuleWalk`). `Wrappers`, `Sorting` and `PythonText` hold what several modules share.

## Where the code does not do what is said of it

Each of these has a lemma with an input that fails and one with the exact condition under which the code does meet
the claim.

- Canonical JSONL is not idempotent on rows whose strings hold U+0085, U+2028 or U+2029: the printer leaves them
  unescaped and `str.splitlines` cuts there: input `CanonicalJsonl.IdempotenceFails`, condition
  `CanonicalJsonl.CanonicalizeIdempotentIff`.
- The transaction and available directories of a shard can both exist when a shard or transaction name is used
  with two partners: input `PublicationRecovery.SharedNameClash`, condition
  `PublicationRecovery.ExclusiveIffOneToOne`.
- A mismatching shard stays available when its quarantine slot is taken: input
  `PublicationRecovery.OccupiedSlotKeepsOther`, condition `PublicationRecovery.MismatchIffSlotFree`.
- A crash between `mkdir` and the staging manifest leaves a transaction that every later call refuses:
  input `PublicationRecovery.CrashCanAbandon`, condition `PublicationRecovery.RecoveryIff` and, among other
  publishers, `PublicationTogether.RecoveryAmongOthersIff`.
- "Corrupt or mismatched: quarantine and start a new transaction" (docs/autodistill.md, line 305) does not hold of a
  damaged manifest or a broken chain, which every call refuses in place: input
  `PublicationQuarantine.DamagedIsNeverSetAside`, condition `PublicationQuarantine.SetAsideIff`.
- Publishers with one-to-one names can take each other's quarantine slot when an id holds a dot: input
  `PublicationQuarantine.DottedNames` with `PublicationQuarantine.SharedSlotBlocks`, condition
  `PublicationQuarantine.SharedSlotIff`.
- A `stop_after` earlier than the state found on disk is passed over and the call goes on to `available`: input
  `PublicationRecovery.StopPassedOver`, condition `PublicationRecovery.StopHonoredIff`.
- Teacher-expert replay "only through a reservation whose `replay_of` names the commit" (docs/autodistill.md, lines
  233-234) fails after a replay reservation is released: the artifact is then simply available again:
  input `Ledger.UnlinkedReplay`, condition `Ledger.ReplayLawIff`.
- The "sparse upper bound" of a plan (docs/autodistill.md, line 331) is exceeded when the plan allows for no forced id:
  every captured row forces its target. Input `CaptureEstimate.UnplannedTarget`, condition
  `CaptureEstimate.CapturesFitIff`.
- The docstring of `gini` says 1.0 when one expert takes it all; the value is (n-1)/n: input
  `MoeStatistics.GiniOfOneTakesAll`, condition `MoeStatistics.GiniRange` (never 1).
- Assembling a changelog is not repaired by a re-run when an entry contains a heading line: input
  `ChangelogIdempotence.HeadingBreaksRerun`, condition `ChangelogAssembly.RerunRepairsIff`.
- Known sections that are in order can be put out of order by a heading inside an entry: input
  `ChangelogOrder.HeadingBreaksOrder`, condition `ChangelogOrder.EntryKeepsOrderIff`.
- An example id may start with `_`, `.`, `:` or `-`, a row's id may not: such a dataset is bound and then refused at
  its first row: input `BoundExamples.BoundThenRefused`, condition `BoundExamples.CapturesOkIff`.

## Model

| member | source | states |
|---|---|---|
| CaptureShardPublisher.CaptureShardPublisher.Publish | src/souplite/autodistill/publisher.py:96-140 | The whole call as a program on a disk that crashes after any number of atomic steps: result, remaining steps and every file equal those of the specified run, for every disk, stop state and crash point |
| CaptureShardPublisher.CaptureShardPublisher.Advance | src/souplite/autodistill/publisher.py:126-140 | From the last committed manifest on: commit `complete`, then the later states, stopping where asked; leaves the disk the specified run leaves at the crash point or the end |
| CaptureShardPublisher.CaptureShardPublisher.AdvanceComplete | src/souplite/autodistill/publisher.py:133-140 | From `complete` on the payload is verified before `verified` is committed, and only then promoted |
| CaptureShardPublisher.CaptureShardPublisher.StagePayload | src/souplite/autodistill/publisher.py:174-207 | Staging refuses an existing directory or another plan; otherwise plan, directory, payload and staging manifest appear in this order, a crash leaving exactly the prefix done so far |
| CaptureShardPublisher.CaptureShardPublisher.PromoteShard | src/souplite/autodistill/publisher.py:226-245 | The directory is renamed into place only onto a free path, and the available manifest is written last |
| CaptureShardPublisher.CaptureShardPublisher.QuarantineDirectory | src/souplite/autodistill/publisher.py:347-364 | A mismatching directory is renamed to a free quarantine path and then marked; the call fails in every case |
| CaptureShardPublisher.CaptureShardPublisher.CommitManifest | src/souplite/autodistill/publisher.py:327-333 | A committed manifest is never overwritten: the same bytes are accepted, other bytes refused, a missing file is one atomic write |
| CaptureShardPublisher.CaptureShardPublisher.CommitState | src/souplite/autodistill/publisher.py:209-224 | The next manifest differs from the one before in its state and in the digest of that predecessor only |
| CaptureShardPublisher.CaptureShardPublisher.InspectExisting | src/souplite/autodistill/publisher.py:247-264 | Finds the one existing directory and its last manifest, or the error for two directories, no manifest, a damaged file or a bad chain |
| CaptureShardPublisher.CaptureShardPublisher.ReadAll | src/souplite/autodistill/publisher.py:256-260 | The reading loop returns the existing manifests in state order or refuses at a damaged one |
| CaptureShardPublisher.CaptureShardPublisher.CheckChain | src/souplite/autodistill/publisher.py:266-284 | The chain loop returns the first error among contiguity, state, identity, hash chain and payload commitments |
| Publication.CaptureEnvIsSound | src/souplite/autodistill/publisher.py:312-325 | Every payload the publisher builds from capture rows passes its own semantic verification, and no other rows have the same payload |
| PublicationChain.AcceptedIff | src/souplite/autodistill/publisher.py:266-284 | Inspection accepts a directory with current manifest m iff its manifests are a contiguous prefix of the four states, each naming the publisher, hash-chained, with one payload commitment, and m is the last |
| PublicationChain.ChainGrows | src/souplite/autodistill/publisher.py:209-224 | Writing the successor of the current manifest keeps the chain valid and makes the successor current |
| PublicationChain.LastManifestDeterminesAll | src/souplite/autodistill/publisher.py:273-284 | With collision-free hashes, the current manifest of an accepted directory determines every earlier manifest and the only payload that passes the digest check |
| PublicationSteps.PublishIsStepwise | src/souplite/autodistill/publisher.py:96-140 | Whatever the disk holds, a call only ever writes an absent plan, makes a directory with both paths free, fills an empty directory, adds a chained manifest for an allowed transition, or renames onto a free path |
| PublicationSteps.StepLosesNothing | src/souplite/autodistill/publisher.py:174-245 | Each atomic step keeps a written `plan.json` and every payload and manifest of every directory |
| PublicationSteps.CallsLoseNothing | src/souplite/autodistill/publisher.py:96-140 | From any disk, no sequence of calls and crashes of any publishers changes a written plan or loses a payload or manifest |
| PublicationSteps.CallsKeepExclusive | src/souplite/autodistill/publisher.py:247-250 | With one-to-one names the transaction and available directory of a shard never both exist, on any disk reached from one where they do not |
| PublicationLadder.Climb | src/souplite/autodistill/publisher.py:96-140 | Every disk a call can leave is a rung of one ladder of nine; a call that finds a rung climbs all rungs up to its target and returns the manifest committed there, and on the two rungs between `mkdir` and the staging manifest refuses and writes nothing |
| PublicationLadder.CommittedIsAccepted | src/souplite/autodistill/publisher.py:174-245 | The manifests a publisher writes form an unbroken chain that its own inspection accepts at every stage |
| PublicationRecovery.RetriesClimb | src/souplite/autodistill/publisher.py:96-140 | After any number of re-runs, each crashing or stopping anywhere, the disk is the rung given by simple arithmetic on the crash points |
| PublicationRecovery.RecoveryIff | src/souplite/autodistill/publisher.py:96-140 | After any history of interrupted re-runs one complete call leaves the very disk of an uninterrupted first call, payload available, iff no crash fell between `mkdir` and the first manifest; otherwise it refuses and changes nothing |
| PublicationRecovery.CrashCanAbandon | src/souplite/autodistill/publisher.py:185-206 | A crash right after `mkdir` leaves such an abandoned transaction directory |
| PublicationRecovery.MismatchIffSlotFree | src/souplite/autodistill/publisher.py:112-115 | On any disk a mismatching directory is never reported as published; it leaves its place iff its quarantine slot is free, with nothing lost, and otherwise the disk is unchanged |
| PublicationRecovery.OccupiedSlotKeepsOther | src/souplite/autodistill/publisher.py:347-355 | Publishing a, b, b, a under one name leaves the differing payload b available and refuses a: the slot condition above cannot be dropped |
| PublicationRecovery.SharedNameClash | src/souplite/autodistill/publisher.py:247-250 | Two publishers sharing one of the two names can leave both directories of one of them on disk |
| PublicationRecovery.ExclusiveIffOneToOne | src/souplite/autodistill/publisher.py:247-250 | For publishers of one plan: the two directories never both exist, over all sequences of calls and crashes, iff their shard and transaction names are one to one |
| PublicationLadder.StopOnRungIff | src/souplite/autodistill/publisher.py:96-140 | On every rung a call can resume, `stop_after` is the state the call ends in iff no manifest of a later state is committed on that rung |
| PublicationRecovery.StopHonoredIff | src/souplite/autodistill/publisher.py:96-140 | After any history of interrupted re-runs that did not abandon the transaction, `stop_after` is the state the call ends in iff neither directory of the shard holds a manifest of a later state |
| PublicationRecovery.StopPassedOver | src/souplite/autodistill/publisher.py:126-140 | A call that stopped at `verified`, followed by one with `stop_after` `staging`: the second goes on to `available` |
| PublicationTogether.CallKeepsView | src/souplite/autodistill/publisher.py:96-140 | A call of a publisher with other names, whatever it publishes and wherever it crashes, changes neither directory of this one, and the plan only by writing the one they share |
| PublicationTogether.TogetherClimb | src/souplite/autodistill/publisher.py:96-140 | With any calls of other publishers between its own interrupted re-runs, the disk is what it holds outside the two directories of this publisher, and beside it the rung that own crash points alone decide, except that another call may have written the plan |
| PublicationTogether.RecoveryAmongOthersIff | src/souplite/autodistill/publisher.py:96-140 | Among other publishers with names of their own: one complete call returns the manifest and leaves the shard directory of an uninterrupted first call, touching nothing of the others, iff none of its own crashes abandoned the transaction; otherwise it refuses and changes nothing |
| PublicationQuarantine.SetAsideIff | src/souplite/autodistill/publisher.py:96-125 | On any disk, damaged or not, what a call finds in its place is set aside iff its manifest chain is accepted, the directory does not match and the slot is free; where inspection fails the call changes nothing |
| PublicationQuarantine.RefusedForever | src/souplite/autodistill/publisher.py:247-284 | A directory that inspection refuses stays: no sequence of calls and crashes of its publisher changes the disk |
| PublicationQuarantine.DamagedIsNeverSetAside | src/souplite/autodistill/publisher.py:256-260 | A transaction with an unreadable staging manifest is refused by every call and never set aside |
| PublicationQuarantine.SharedSlotIff | src/souplite/autodistill/publisher.py:347-350 | Publishers of different shards share a quarantine slot iff the shard id of one goes on, after a dot, into what is the start of the transaction id of the other |
| PublicationQuarantine.SlotsApartIff | src/souplite/autodistill/publisher.py:347-364 | No call of one publisher ever touches the slot of another iff the slots differ |
| PublicationQuarantine.SharedSlotBlocks | src/souplite/autodistill/publisher.py:347-355 | With names of their own but a shared slot: once one publisher has filled it, a mismatching shard of the other stays available |
| PublicationQuarantine.DottedNames | src/souplite/autodistill/publisher.py:347-350 | The names ("a.b", "c") and ("a", "b.c") are one to one and share a slot |
| PublicationWitness.OnlyTokenIsPublishable | src/souplite/autodistill/publisher.py:142-172 | What the statements about histories assume of captures can be met: the row over a vocabulary of one token can be published, under every example id |
| PublicationSuccess.SuccessIsGood | src/souplite/autodistill/publisher.py:96-140 | On any disk, damaged or not: if a call returns a manifest, the next inspection finds exactly that manifest and plan, payload, digests and semantics match what was asked for; without `stop_after` it is the available one |
| PublicationSuccess.PublishAgainWritesNothing | src/souplite/autodistill/contract.py:1004-1026 | Publishing again what was published writes nothing and returns the same manifest, on any disk |
| PublicationReach.CallsReached | src/souplite/autodistill/publisher.py:96-140 | Invariant of all disks reachable from an empty root: every directory is that of some genuine job after some number of its files, in the place that number allows |
| PublicationReach.ReachableDisk | src/souplite/autodistill/publisher.py:226-264 | On every reachable disk an available directory already holds the verified manifest, an unbroken chain and a payload that passes all checks; a transaction directory holds no manifest or such a chain, not yet available |
| CaptureRows.ScanPayloadRows | src/souplite/autodistill/publisher.py:142-171 | The one-pass loop over captures computes the specified scan, with the first error in source order |
| CaptureRows.ScanAcceptsIff | src/souplite/autodistill/publisher.py:142-171 | The scan accepts exactly the rows that fit the plan and form a non-empty concatenation of blocks with distinct example ids and positions 0, 1, ..., n-1 |
| CapturePayload.RowRoundTrip | src/souplite/autodistill/contract.py:537-554 | A stored row is read back from its JSON form unchanged |
| CapturePayload.BuildPayload | src/souplite/autodistill/publisher.py:142-172 | The scan loop and the joining loop together build the specified payload, or refuse for the first bad row as the specification does |
| CapturePayload.WrittenRowsDecode | src/souplite/autodistill/publisher.py:312-325 | Every payload written from rows decodes, line by line, to exactly those rows |
| CapturePayload.WrittenPayloadVerifies | src/souplite/autodistill/publisher.py:312-325 | Semantic verification accepts every untouched payload, and equal payloads come from equal rows |
| JsonRoundTrip.LoadsPrint | src/souplite/autodistill/contract.py:694-709 | Parsing the canonical text of any valid value gives the value back: objects, escapes, numbers, nesting (RFC 8259, sections 4 and 7) |
| JsonRoundTrip.PrintInjective | src/souplite/autodistill/contract.py:694-709 | Canonical texts are equal iff the values are |
| JsonRoundTrip.ParsedIsValid | src/souplite/autodistill/contract.py:740-745 | Whatever the parser returns can be printed again |
| JsonExtension.ObjectPrefixRefused | src/souplite/autodistill/contract.py:740-742 | No proper prefix of a printed object is a document |
| CanonicalJsonl.BuildUniqueObject | src/souplite/autodistill/contract.py:727-733 | The pair loop builds the object, or refuses at the first repeated key |
| CanonicalJsonl.CanonicalizeJsonl | src/souplite/autodistill/contract.py:712-746 | The line loop yields the framed canonical rows, or the error of the first bad line with its number |
| CanonicalJsonl.FrameCanonicalIff | src/souplite/autodistill/contract.py:712-746 | Canonical output is accepted and unchanged by a second pass iff no string in it holds U+0085, U+2028 or U+2029; otherwise the second pass fails |
| CanonicalJsonl.CanonicalizeIdempotentIff | src/souplite/autodistill/contract.py:712-746 | For every accepted source, canonicalizing is idempotent iff its rows hold none of those three characters |
| CanonicalJsonl.IdempotenceFails | src/souplite/autodistill/contract.py:736-745 | A concrete accepted source whose canonical form is refused |
| CanonicalJsonl.FrameInjective | src/souplite/autodistill/contract.py:746-746 | Framed bytes are equal iff the ordered rows are |
| CanonicalJsonl.CanonicalEqualIff | src/souplite/autodistill/contract.py:712-746 | Two accepted sources have equal canonical bytes iff their ordered rows are equal |
| CanonicalJsonl.SplitUnix | src/souplite/autodistill/contract.py:736-736 | Whatever mixture of LF, CRLF and lone CR a text has, its lines are those of the text with line feeds instead |
| CanonicalJsonl.CanonicalizeIgnoresNewlineStyle | src/souplite/autodistill/contract.py:715-717 | Sources that differ only in their newline styles, mixed or not, have the same canonical bytes or the same error, and a byte order mark changes neither |
| CanonicalJsonl.NewlineStyles | src/souplite/autodistill/contract.py:715-717 | Writing every line end as LF, CRLF or CR is such a difference |
| CanonicalJsonl.SplitWholeFrame | src/souplite/autodistill/fingerprints.py:147-149 | No canonical row holds a newline or carriage return: splitting framed bytes gives exactly the printed rows |
| CanonicalJsonl.RowsValid | src/souplite/autodistill/contract.py:735-746 | Rows read from any source are printable objects |
| Fingerprints.StreamFile | src/souplite/autodistill/fingerprints.py:18-28 | The chunk loop returns the size, the digest of all bytes, and the bytes themselves exactly if they are to be retained |
| Fingerprints.VerifyDataset | src/souplite/autodistill/fingerprints.py:129-154 | The file loop computes the verified dataset bytes, with the first error in source order |
| Fingerprints.FilesHoldTheirRows | src/souplite/autodistill/fingerprints.py:139-149 | Joined per-file output is the frame of all logical rows in file order, and the summed line count is their number |
| Fingerprints.DatasetVerifiesIff | src/souplite/autodistill/fingerprints.py:129-154 | The dataset verifies iff every file matches its digest and holds rows, the digest of the framed rows matches and their number is the planned one; the byte lines are then the rows in order and read back as them |
| Capture.SoftmaxIsPlain | src/souplite/autodistill/capture.py:44-60 | The max-shifted log-sum-exp is the logarithm of the plain softmax, and the probabilities sum to one |
| Capture.ShiftInvariant | src/souplite/autodistill/capture.py:58-60 | Adding a constant to every logit leaves the built row, or its error, unchanged |
| Capture.BuildAcceptsIff | src/souplite/autodistill/capture.py:63-130 | Over exact reals a row is built exactly for valid input: the final contract check refuses nothing but a bad example id |
| Capture.RowMeetsContract | src/souplite/autodistill/contract.py:580-635 | The row computed from any distribution meets every clause of the row contract |
| Capture.RowMass | src/souplite/autodistill/capture.py:99-130 | Stored mass plus tail is one, the tail is positive iff ids are omitted, the target is stored, the entropy lies in [0, ln n] |
| Capture.RowTopK | src/souplite/autodistill/capture.py:99-107 | Exactly k ids are kept; none left out is more probable than one kept, ties going to the lower id; the stored mass is at least k/n |
| Capture.EntropyRange | src/souplite/autodistill/capture.py:109-112 | The entropy sum lies between 0 and ln n for every distribution |
| Ranking.TopPrecedes | src/souplite/autodistill/capture.py:99-103 | The first k of the ranking precede all others in probability, then in id |
| Ranking.TopIsMaximal | benchmarks/harness/moe_expert_coverage.py:377-398 | No set of k indices has a greater sum than the top k |
| Ranking.TopShare | benchmarks/harness/moe_expert_coverage.py:368-374 | The top k of n entries hold at least k/n of the total |
| TailKl.KlRange | src/souplite/autodistill/contract.py:791-819 | With masses checked only to 1e-9 and a zero teacher tail dropping its term, every finite result is at least -2e-9, and it is infinite iff the teacher tail is positive and the student tail is zero |
| TailKl.CoarseAtMostDense | src/souplite/autodistill/contract.py:755-819 | For any two distributions and any non-empty selection the coarse divergence is finite and at most the dense one, with equality iff all omitted ids share one probability ratio |
| TailKl.FullSelectionIsDense | src/souplite/autodistill/contract.py:764-766 | With every id selected the function is the dense forward divergence, which is non-negative |
| CaptureTrajectory.CaptureTrajectory | src/souplite/autodistill/capture.py:133-186 | The loop over target positions computes the specified rows, each with its truncated context, or the first error |
| CaptureTrajectory.Context | src/souplite/autodistill/mlx_worker.py:232-246 | A context that fits is kept whole; a longer one is refused iff truncation is off, and is otherwise the last (left truncation) or the first (right) tokens of it, exactly the maximum in number; never empty for a non-empty prompt |
| MlxWorker.CaptureExamples | src/souplite/autodistill/mlx_worker.py:355-405 | The loop over examples collects the rows of whichever branch each example takes, or the first error |
| MlxWorker.CaptureInOneForward | src/souplite/autodistill/mlx_worker.py:358-381 | One forward over the final context serves all positions of an example |
| MlxWorker.CapturePerPosition | src/souplite/autodistill/mlx_worker.py:382-405 | One forward per position over its truncated context |
| MlxWorker.WorkerIsTrajectory | src/souplite/autodistill/mlx_worker.py:353-405 | For a causal model both branches give, for every example and truncation mode, exactly the rows or refusal of the plain trajectory on per-context logits |
| MlxWorker.CapturesPassScan | src/souplite/autodistill/publisher.py:142-171 | Whatever the model, rows captured from valid examples with distinct ids are accepted by the publisher's scan |
| BoundExamples.LoadedIsBound | src/souplite/autodistill/mlx_worker.py:203-229 | Any slice the loader returns is non-empty, within the vocabulary and the row cap, with distinct ids |
| BoundExamples.CapturesOkIff | src/souplite/autodistill/mlx_worker.py:355-405 | With a causal model capture succeeds iff every example fits or may be truncated, has an id that can name a row, and top_k fits the vocabulary |
| BoundExamples.WrittenExamplesLoad | src/souplite/autodistill/mlx_worker.py:203-229 | A dataset written from well-formed examples reads back as exactly those, for every request: what is left is the choice of the slice |
| BoundExamples.BoundThenRefused | src/souplite/autodistill/mlx_worker.py:65-65 | A dataset of one example with id "_a" is bound, and capturing it fails for every causal model; under the id "a" it is captured |
| BoundExamples.CaptureCount | src/souplite/autodistill/mlx_worker.py:355-405 | There is one captured row per target token |
| BoundExamples.SlicePublishes | src/souplite/autodistill/mlx_worker.py:203-229 | The rows of any slice a request can select are one per target token, at most the cap, and pass the publisher's scan |
| Ledger.ValidateLedger | src/souplite/autodistill/contract.py:974-1001 | The validation loop returns the final state, or the first error in source order |
| Ledger.AcceptedStepByStep | src/souplite/autodistill/contract.py:974-1001 | Validating a ledger with one more event is validating the ledger and checking the event against the last one |
| Ledger.PrefixAccepted | src/souplite/autodistill/contract.py:974-1001 | Every prefix of an accepted ledger is accepted |
| Ledger.Conservation | src/souplite/autodistill/contract.py:886-1001 | Reservations equal releases plus commits plus one if the ledger ends reserved; replays <= commits <= replays + 1, the surplus being an unreplayed last commit |
| Ledger.SingleUse | src/souplite/autodistill/contract.py:990-1000 | Each release or commit answers the reservation just before it under its id; each replay names the commit just before it under another id; a student_rollout commit is final |
| Ledger.ReplayLawIff | docs/autodistill.md:233-234 | The documented law, that a committed artifact is only reserved again by a linked replay, holds of an accepted ledger iff no released replay is followed by anything |
| Ledger.UnlinkedReplay | src/souplite/autodistill/contract.py:974-1001 | An accepted ledger of six events that consumes an artifact a second time through a reservation naming no earlier commit |
| Estimate.PayloadWithinEstimate | src/souplite/autodistill/contract.py:449-455 | No payload of planned rows exceeds the per-position bound times the rows, and one equals it iff every row stores as many ids as the plan allows |
| Estimate.EstimateHolds | src/souplite/autodistill/contract.py:449-478 | The reported sparse size bounds every payload whose rows force no more ids than planned, and tokens / rate lies in the reported range for every rate of the profile |
| CaptureEstimate.CapturesArePlanned | src/souplite/autodistill/capture.py:99-106 | Whatever the model and the examples, every captured row stores top_k ids and forces exactly its target |
| CaptureEstimate.UnplannedTarget | src/souplite/autodistill/contract.py:243-243 | A plan with no forced ids per position, which the contract accepts, underestimates a capture of one row from a model that prefers no token, for every vocabulary, every smaller top_k and all widths |
| CaptureEstimate.CapturesFitIff | src/souplite/autodistill/contract.py:449-455 | Everything captured from any causal model and any examples of the vocabulary stays within the estimate iff the plan allows for a forced id or top_k is the vocabulary size |
| MoeStatistics.GiniIsMeanDifference | benchmarks/harness/moe_expert_coverage.py:357-365 | The sorted closed form is the sum of abs(xi - xj) over all ordered pairs divided by 2 n total |
| MoeStatistics.GiniPermutes | benchmarks/harness/moe_expert_coverage.py:357-365 | Permuting the counts does not change it |
| MoeStatistics.GiniRange | benchmarks/harness/moe_expert_coverage.py:357-365 | It lies in [0, (n-1)/n]: 0 iff all counts are equal, (n-1)/n, never 1, iff at most one count is positive |
| MoeStatistics.GiniOfOneTakesAll | benchmarks/harness/moe_expert_coverage.py:357-365 | For the counts 0 and 1 the index is 1/2 |
| MoeStatistics.HotSetIsOptimal | benchmarks/harness/moe_expert_coverage.py:368-398 | The hot set catches exactly the top share of the traffic, no other set of its size catches more, and the share is at least keep/n |
| MoeStatistics.RoundHalfEven | benchmarks/harness/moe_expert_coverage.py:378-378 | The rounding used for the number of experts stays within one half, and a half goes to the even neighbour |
| MoeMeasure.LayerStats.Record | benchmarks/harness/moe_expert_coverage.py:443-452 | One step appends its counts, coverage and hot set and adds the counts to the totals, which stay the pointwise sum of the steps |
| MoeMeasure.MeasureShape | benchmarks/harness/moe_expert_coverage.py:418-454 | After all steps every layer holds exactly the per-step counts of its router and their pointwise sum |
| MoeMeasure.BinCountTotal | benchmarks/harness/moe_expert_coverage.py:446-446 | Every pick is counted exactly once |
| MoeMeasure.CountsAreConserved | benchmarks/harness/moe_expert_coverage.py:432-454 | Over any run the totals of a layer sum to steps x tokens x top_k, and coverage lies in [0, 1] |
| UnbufferedReader.Ranges | benchmarks/harness/issue974_unbuffered.py:171-179 | The loop cuts the aligned span at rounded-down multiples; the last part ends at the end of the span |
| UnbufferedReader.PartsPartition | benchmarks/harness/issue974_unbuffered.py:154-179 | For every span and every number of readers the cuts are sector-aligned and every address of the aligned span is in exactly one part |
| UnbufferedReader.Handle.Read | benchmarks/harness/issue974_unbuffered.py:109-111 | A read returns any number of bytes from 1 to what was asked for and the file holds, and copies exactly those |
| UnbufferedReader.ReadUnbuffered | benchmarks/harness/issue974_unbuffered.py:94-115 | Under any short reads the loop ends; told to expect what the file holds it succeeds with exactly those bytes and touches nothing else, told more it fails at the end of the file |
| UnbufferedReader.RunUnbuf | benchmarks/harness/issue974_unbuffered.py:183-189 | One reader with the arguments its part gives it never fails, and fetches exactly its part of the file and nothing else |
| UnbufferedReader.TurnIsReturn | benchmarks/harness/issue974_unbuffered.py:105-113 | Any answer a handle may give to the request a reader makes next is one of the returns of the interleaved run, and leaves the arena that return leaves |
| UnbufferedReader.RequestsAreAligned | benchmarks/harness/issue974_unbuffered.py:94-115 | In every run whose short reads end on a sector or at the end of the file, every request of every reader starts on a sector of file and arena and is whole sectors long, for a chunk of whole sectors |
| UnbufferedReader.ExpectedIsHeld | benchmarks/harness/issue974_unbuffered.py:183-187 | The count each reader is told to expect is what the file holds in its part |
| UnbufferedReader.ArenaIsFile | benchmarks/harness/issue974_unbuffered.py:171-189 | After all readers, in any interleaving of any short reads, the arena is the file over the aligned span up to the end of the file and untouched beyond |
| UnbufferedReader.RunIsFinite | benchmarks/harness/issue974_unbuffered.py:107-113 | A run has at most as many returned reads as bytes fetched |
| UnbufferedReader.NoDeadlock | benchmarks/harness/issue974_unbuffered.py:107-113 | While some reader is not done, one more return is possible |
| Changelog.ApplyFragments | scripts/assemble_changelog.py:251-273 | The loops over sections and fragments compute the specified changelog or the first error |
| Changelog.AppendIsVerbatim | scripts/assemble_changelog.py:209-226 | Appending is, character for character, the separator, the entries joined verbatim and their separator at the end of the section |
| ChangelogText.Join | scripts/assemble_changelog.py:209-215 | The joining loop computes the verbatim payload |
| ChangelogText.BlocksAreVerbatim | scripts/assemble_changelog.py:189-215 | The inserted lines are the payload followed by its separator, ending with a blank line |
| ChangelogProperties.ApplyInsertsInsideUnreleased | scripts/assemble_changelog.py:154-273 | Applying any fragments only inserts lines, all between the Unreleased heading and the next release; everything outside is unchanged |
| ChangelogProperties.AppendFills | scripts/assemble_changelog.py:163-226 | After an append the section holds its old lines followed by the new ones |
| ChangelogProperties.InsertFills | scripts/assemble_changelog.py:229-248 | After an insertion the new section is found and holds its entries |
| ChangelogProperties.InsertionGrows | scripts/assemble_changelog.py:163-248 | Every other section is still found, and what it held is the start of what it holds |
| ChangelogIdempotence.ApplyMakesPresent | scripts/assemble_changelog.py:251-273 | After applying heading-free fragments every entry is in its section |
| ChangelogIdempotence.FixedPointIff | scripts/assemble_changelog.py:251-273 | Applying fragments changes nothing iff every entry is in its section already |
| ChangelogIdempotence.SecondApplicationIff | scripts/assemble_changelog.py:251-273 | A second application is a no-op iff no entry holds a section or release heading line; then so is the application of any of the fragments |
| ChangelogIdempotence.HeadingBreaksRerun | scripts/assemble_changelog.py:163-178 | A concrete entry with a heading in it whose second application is not a no-op |
| ChangelogOrder.ApplyKeepsOrder | scripts/assemble_changelog.py:209-273 | Applying any tame entries keeps known sections that were in order in order. An entry is tame if it holds no section heading but its own section's, or, up to a release heading in it, only headings in order from its own section on |
| ChangelogOrder.EntryKeepsOrderIff | scripts/assemble_changelog.py:209-273 | An entry keeps the order of every ordered changelog iff it is tame |
| ChangelogOrder.EntriesKeepOrderIff | scripts/assemble_changelog.py:251-273 | Whichever of a list of entries are applied to whatever ordered changelog, the order is kept iff all of them are tame |
| ChangelogOrder.HeadingBreaksOrder | scripts/assemble_changelog.py:229-248 | A concrete valid entry that puts Added behind Fixed |
| ChangelogAssembly.RerunRepairsIff | scripts/assemble_changelog.py:297-316 | Whatever step a crash hits, running again ends with the same changelog and no fragments left, iff no entry holds a heading line |
| ChangelogAssembly.Repository.Assemble | scripts/assemble_changelog.py:297-316 | Write, then unlink one by one, on a repository that crashes after any number of steps: leaves exactly the specified files |
| ModuleWalk.UnwrapCompiled | benchmarks/harness/fsdp_sharding_probe.py:71-85 | The loop ends on every graph and returns the specified module |
| ModuleWalk.UnwrapEndsIff | benchmarks/harness/fsdp_sharding_probe.py:71-85 | The result is not a wrapper iff the chain of wrappers ends, and is then the module at its end |
| ModuleWalk.ModuleClassHistogram | benchmarks/harness/fsdp_sharding_probe.py:98-115 | On shared and cyclic graphs the walk ends and counts, for every class, the modules reachable through wrappers and children, each exactly once |

## Left out

- IEEE rounding, overflow and underflow of `exp`: rows and divergences are over exact reals, with the 1e-9 tolerance kept. A stored float is the text Python prints for it; `Floats` maps such texts to numbers.
- UTF-8 encoding: text is a sequence of Unicode scalar values, one to one with its bytes. Lone surrogates, `NaN` and infinities, which both sides refuse, Python's limit of 4300 digits per integer and the parser's recursion limit are not modelled.
- Lenient field conversions of the row model (a number given as a string, `1.0` for `1`): a row is read strictly. Semantic verification compares the re-encoded payload with the stored one, so it refuses such rows either way.
- SHA-256 itself: digests are functions, injective only where a statement says so. Plan, teacher and tokenizer fingerprints beyond the plan digest.
- Temporary files, `fsync`, symbolic links and path containment: atomic write, `mkdir` and rename are single steps. Empty parent directories are not part of the disk.
- Two publishers at work at the same moment: calls follow one another, each ending or crashing first.
- MLX itself, process spawning, receipts, nonces and time-outs of the capture worker; a router's picks and a model's logits are inputs.
- The final link from a computed row (reals) to a stored row (printed floats): both meet the same contract predicate, but no float formatting connects them.
- CaptureShardPublisher.CaptureShardPublisher.Publish: the payload is built by the modelled scan and printer as one function of the captures rather than by calling `CapturePayload.BuildPayload` inside the class.
- UnbufferedReader.Handle.Read: how many bytes a read returns is chosen by a parameter of the handle; the operating system's own alignment errors are not modelled.
- MoeMeasure.LayerStats.Record: picks are expected to be below the number of experts, which is what a router's top-k returns.
- MoeStatistics.HotSetIsOptimal: `len(counts) * fraction` is an exact product before it is rounded half to even.
- Changelog.ApplyFragments: a file is its list of lines ended by line feeds; carriage returns, the BOM diagnosis, fragment file names and the release baseline check are left out, digits are ASCII, and a last line without its line feed is completed when something is appended to it.
- Jaccard overlap, `uniform_coverage`, `sharding_verdict`, the example transition table and the summaries built from the statistics: single-branch facts.
- Everything else in the repository: command line, cloud stubs, archives, evaluation glue and user interfaces.
