# Fluent Case Layer: a verified model of the driver

The driver of the Fluent Case Layer compiles a control document into an ordered plan, executes the plan
through an adapter while keeping an append-only event ledger, and records human or agent decisions about
finished attempts in a second ledger from which a manifest of named refs is derived. This project models
that driver in Dafny and proves what its users rely on: what survives a crash, what a resume may skip, what
a ref points to, and that the algorithms on graphs and JSON values do what their names promise.

Solver, file system and clock are arbitrary. Whatever an adapter returns, raises or answers is chosen freely
by the model, and every method that writes durable state may end with a crash after any single write.

## How it is organised

The attempt and decision store:

- `HashChain` is the ledger format shared by events and decisions. A digest is a constructor over the
  hashed record and the previous digest, so that two digests are equal only if all they cover is equal.
- `AttemptRecords`, `DecisionLedger` and `StoreOperations` hold the records, the fold of promotions per ref,
  and the atomic steps of the store with all their refusals.
- `AttemptStore` is the store as an object whose methods write one file at a time; each method says exactly
  which states a crash can leave behind, in terms of those steps.
- `StoreMeaning` says what those operations leave behind, on the fields of the records and from the inputs alone.
- `CanonicalJson` is the canonical text of a JSON value, `JsonReader` a reader of JSON texts that reads it back.
  `LedgerText` and `RecordText` are ledger files as text: the lines that a reader sees in a file and the records
  that it finds in them. `DecisionText` says what the texts that callers hand over do to the decision file.
- `StoreProtocol` interleaves any number of processes at the lock: unlocked load, append, object, manifest,
  rebuild, crash. Its invariant is inductive; `StoreGuarantees` and `StoreRecovery` derive what holds in every
  reachable state and over every run.
- `StoreSimulation` shows that the operations of the store object take steps of that protocol, whatever their
  outcome, so that those results hold of the object.

The executor:

- `RunIdentity` is the plan lock and the metadata of a run directory, which keep its plan and run id fixed.
- `RunLedger` says which event may follow which history and derives what every such ledger satisfies.
- `RunDirectory`, `PlanProgress` and `AttemptTrace` say how snapshots and manifests hang together with the
  ledger, how far a ledger has come with its plan, and what one successful attempt leaves behind.
- `Executor` is the plan executor as an object over the files of one run directory. Every append it makes is
  shown to be allowed by `RunLedger`, in every run, whatever the adapter does and wherever it crashes.
- `Gates` evaluates conditions and gates, and `GateMeaning` says what their verdicts mean for the values observed;
  `ScopeReads` says what an attempt can observe at which path. `Manifests` keeps the artifact and checkpoint
  manifests, `SnapshotFiles` names snapshot files.

Both together: `CandidateAttempts` begins an attempt, runs it with the executor and finishes it, and proves that
what is promoted afterwards is a complete run.

Graphs:

- `StageGraph` is the theory of paths, cycles and chains. `Planner` is the layered sort and the injection of
  the launch action, `StageDag` the depth-first check, the ancestor worklist and the stage validator. The two
  cycle checks are independent programs and are proved to agree.

JSON and paths:

- `Merging`, `Dotted` with `DottedReads`, `Campaign` with the labels of `Slugs`, `JsonPointer`, `StructuralDiff`,
  `DiffReplay` and `StatePaths`, over the ordering, sorting and splitting facts of `Order`, `Sorting` and `Strings`.

## Results worth knowing

Some properties that the code suggests hold only under a condition. The condition is proved exact.

- A diff report replays in its own order exactly if no list anywhere loses more than one element
  (`ReportOrderReplaysIff`); the report about a list of two that becomes empty does not (`TwoLossesFailInOrder`).
  Applying additions and replacements first and the removals from the end always reconstructs the new value
  (`ReplayReconstructs`).
- The replacement of a whole document is reported at `/`, which RFC 6901 reads as the empty key, so the
  pointer theorems speak of reports on two mappings or two lists.
- Snapshot file names replace slashes and pairs of dots in action ids. Distinct snapshots never share a file
  exactly if that replacement keeps the ids apart (`NeverOverwritesIff`). Schema identifiers are kept apart;
  ids of hand-written plans such as `a/b` and `a_b` are not.
- An accepted control document is ordered by the planner exactly if no stage is named `launch-solver`
  (`AcceptedOrdersIff`); the identifier pattern allows that name.
- A dotted write leaves unrelated readings alone exactly if they found nothing or share only mappings with the
  written path (`UnrelatedReadUnchangedIff`): reading indexes lists, writing replaces them.
- A ledger file reads back what was written exactly if no string in any record contains U+0085, U+2028 or U+2029:
  JSON text leaves them unescaped and the reader ends lines at them. Otherwise some line is no mapping and the
  reader stops there (`FileReadsBackIff`). A caller of a decision can tell beforehand: the ledger stays readable
  exactly if the reason, stripped of blanks, has none of the three (`RequestReadsBackIff`). The reason
  `a\u2028b` is accepted and leaves a file that never reads back again (`SeparatorReasonIsAccepted`,
  `UnreadableForever`).
- A rebuild succeeds exactly if the run files of every promoted attempt still verify (`RebuildRecoversIff`). Nothing
  keeps a process from writing into the directory of a finished run; if none does, every rebuild succeeds
  (`RebuildRecovers`).
- A candidate attempt in a fresh directory can be finished exactly if the run was given the id that the store uses,
  or recorded nothing (`ApplyCandidate`). The store trims blanks around an id and the run does not, so an id such
  as `" a"` leaves an attempt that stays running (`BlankIdNotCollected`).
- Two combinations of a matrix share a case id exactly if all their values have the same slugs, unless a slug has
  two underscores in a row (`CombinationsCollideIff`). With two underscores even combinations without a slug in
  common can share one (`UnderscoresShareId`).
- Combining two overlays before applying them equals applying them in turn, for every case, exactly if the
  lower layer has no other value where the upper one has a mapping (`LayerableIffAssociative`). For the three
  layers of a campaign the condition is `Stackable`, exact as well (`CombinedOverlayIsLayeredIff`).
- Matrix keys read back the options chosen for them exactly if no key is empty or a dotted prefix of another
  (`ReadBackIffIndependent`, for options that are not mappings themselves).
- Injecting the launch action keeps a plan sortable exactly if no authored stage already has its id
  (`InjectionSafeIff`).
- The manifests are written before the event that announces an entry. They are never behind the ledger
  (`AllListed`), but after a crash they can list an entry that the ledger never announced.

## Model

| member | source | states |
|---|---|---|
| HashChain.Read | src/fluent_case_layer/driver/events.py:28-56 | Reading accepts a file exactly if every line parses, is numbered in sequence, links to its predecessor, carries its own digest and belongs to the run and plan; it then returns the verified ledger, and otherwise the first of these checks that fails on the first line that does not go with those before it |
| HashChain.AppendVerifies | src/fluent_case_layer/driver/events.py:58-88 | Appending an entry to a verified ledger gives a verified ledger with one more body |
| HashChain.HashDeterminesHistory | src/fluent_case_layer/driver/events.py:43-53 | Two entries of verified ledgers with the same digest have the same position and the same history, event for event |
| HashChain.TailDeterminesLedger | src/fluent_case_layer/driver/attempts.py:323-330 | Two verified ledgers with the same tail digest are the same ledger |
| HashChain.HashesAreDistinct | src/fluent_case_layer/driver/attempts.py:541-558 | No digest occurs twice in a verified ledger, so a decision digest names one decision |
| HashChain.VerifiedPrefix | src/fluent_case_layer/driver/events.py:28-56 | Every truncation of a verified ledger verifies as well, which is why the evidence of a run records the tail digest |
| CanonicalJson.TextCleanIff | src/fluent_case_layer/driver/util.py:35-45 | The canonical text of a value is one line for the reader exactly if no string and no key in it, at any depth, has U+0085, U+2028 or U+2029 |
| CanonicalJson.TextIsInjective | src/fluent_case_layer/driver/util.py:35-49 | Two values have the same canonical text only if they are equal, so that comparing or hashing texts compares values |
| JsonReader.TextReadsBack | src/fluent_case_layer/driver/util.py:35-45 | A JSON reader after RFC 8259, with blanks between tokens, escapes, and the last of equal keys, reads the canonical text of every value back as that value |
| JsonReader.NoMappingCutShort | src/fluent_case_layer/driver/events.py:28-36 | A canonical text that was cut short is the text of no mapping, in any spelling that the reader takes |
| RecordText.FileReadsBackIff | src/fluent_case_layer/driver/events.py:28-36 | Split into lines and parsed by that reader, a ledger file gives back the records written to it exactly if none has a string with one of the three separators; otherwise some line is not a mapping |
| RecordText.SeparatorBreaksLine | src/fluent_case_layer/driver/events.py:79 | The JSON line of a record with such a reason, which does not read back |
| DecisionText.RequestReadsBackIff | src/fluent_case_layer/driver/attempts.py:441-559 | A decision on a readable ledger leaves it readable exactly if the stripped reason of its caller has none of the three separators |
| DecisionText.SeparatorReasonIsAccepted | src/fluent_case_layer/driver/attempts.py:450-469 | A request with such a reason that passes all checks of its fields |
| DecisionText.DecisionFileReadsBackIff | src/fluent_case_layer/driver/attempts.py:495-559 | Over any run of the store the decision file reads back exactly if no recorded reason has a separator; no other text that a caller hands over can break a line |
| DecisionText.UnreadableForever | src/fluent_case_layer/driver/attempts.py:495-519 | Once the decision file does not read back, it never does again |
| DecisionText.FailureFreeIff | src/fluent_case_layer/driver/executor.py:304-318 | Of the event of a failed action, only the text of the raised error can break the line |
| DecisionText.DocumentTells | src/fluent_case_layer/driver/attempts.py:532-546 | In the line of a decision every part of it, its place in the ledger and the target that it replaces are found under their keys |
| AttemptRecords.EvidencePinsRun | src/fluent_case_layer/driver/attempts.py:421-431 | If a finished attempt loads, any verified event log with the recorded tail digest is the recorded log |
| DecisionLedger.LastPromotionIsFolded | src/fluent_case_layer/driver/attempts.py:631-665 | The fold holds, for each ref, the entry of the last promotion of that ref |
| DecisionLedger.FoldedIsLastPromotion | src/fluent_case_layer/driver/attempts.py:631-665 | Conversely, whatever the fold holds for a ref is the entry of its last promotion |
| DecisionLedger.FindLatestTarget | src/fluent_case_layer/driver/attempts.py:561-574 | The backward scan finds the target that the fold holds for the ref, and nothing for a rejection |
| DecisionLedger.PredecessorsVisitAllPromotions | src/fluent_case_layer/driver/attempts.py:521-574 | From the last promotion of a ref the predecessors visit every promotion of that ref exactly once, newest to oldest, and end at none |
| DecisionLedger.FollowsIsDeterministic | src/fluent_case_layer/driver/attempts.py:521-574 | The predecessors leave no choice: there is one such walk |
| AttemptStore.VerifyRunEvidence | src/fluent_case_layer/driver/attempts.py:399-439 | Accepts exactly the run files that match the recorded digests, plan lock and event log, with the required files for a success |
| AttemptStore.CollectRunEvidence | src/fluent_case_layer/driver/attempts.py:303-331 | Collects a digest for exactly the run files that exist, with the tail digest of the event log, and fails exactly if that log does not verify |
| AttemptStore.AssertRefManifestConsistent | src/fluent_case_layer/driver/attempts.py:631-665 | Accepts exactly if the manifest pins what the fold of the ledger pins, and reports missing and stale manifests apart |
| StoreMeaning.ConsistencyMeaning | src/fluent_case_layer/driver/attempts.py:631-665 | The check passes exactly if the manifest is intact and names for each ref its last promotion with its predecessor, and no other ref, or if there is neither a manifest nor a promotion; it tells a missing, a tampered and a stale manifest apart |
| AttemptStore.AttemptStore.LoadRecord | src/fluent_case_layer/driver/attempts.py:333-346 | Loads exactly the well-digested record of that id whose plan object and run evidence verify |
| StoreMeaning.LoadMeaning | src/fluent_case_layer/driver/attempts.py:333-346 | A record loads exactly if it lies under its own id with its own digest, its plan object is the document of its plan, and, where asked, its run is what it says |
| StoreMeaning.LoadRefused | src/fluent_case_layer/driver/attempts.py:333-346 | Otherwise the error is the first of these checks that fails |
| StoreMeaning.RunEvidenceMeaning | src/fluent_case_layer/driver/attempts.py:399-439 | A run is what a finished record says exactly if every recorded file has the recorded content, the plan lock is of its plan, the event log verifies with entries of that run and plan only and ends with the recorded digest, and a success has all required files |
| StoreMeaning.SafeMeaning | src/fluent_case_layer/driver/attempts.py:31-37 | A name is accepted exactly if it matches the pattern once stripped of blanks, and is used in its stripped form |
| StoreMeaning.StripMeaning | src/fluent_case_layer/driver/attempts.py:31-37 | Stripping takes all blanks off both ends, and nothing else |
| AttemptStore.AttemptStore.Begin | src/fluent_case_layer/driver/attempts.py:166-236 | Is refused exactly if the id is unsafe or taken, the plan is no candidate or not hashed as such, or its object conflicts, with the first of these as error and nothing changed; otherwise the plan object and then a running record with the id, plan and time given; a crash leaves nothing, the plan object, or both |
| AttemptStore.AttemptStore.FinishAttempt | src/fluent_case_layer/driver/attempts.py:238-301 | Replaces a running record, and only the one that was begun, by one that succeeded exactly if no error was given and a summary was given or lies in the run, with the statuses of that summary and a digest of every file of the run; otherwise changes nothing |
| StoreMeaning.FinishRecords | src/fluent_case_layer/driver/attempts.py:238-301 | What the finished record says, from the files of the run, the summary, the error and the time that were handed over: what it keeps of the begun one, how the run ended, with the stated defaults, and the digests of its files |
| StoreMeaning.FinishRefusedUnless | src/fluent_case_layer/driver/attempts.py:238-301 | An attempt can be finished exactly if its record loads, is running and has the digest of the begun one, a summary that is needed from the run can be read, and its event log verifies; otherwise the error is the first of these that fails |
| AttemptStore.AttemptStore.CommitDecision | src/fluent_case_layer/driver/attempts.py:471-493 | Under the lock: ledger first, then object, then manifest; whatever the outcome, a prefix of these writes has happened, and for each refusal it says which one and why |
| AttemptStore.AttemptStore.Decide | src/fluent_case_layer/driver/attempts.py:441-493 | A request that fails a check of the attempt or of its fields is refused with that error and changes nothing; otherwise the outcome is that of the commit, and the decision that it appends has the attempt, digest and plan of the loaded record, the stripped actor, verdict, reason and ref of the request, and the last promotion of that ref as predecessor |
| StoreMeaning.CheckRequestMeaning | src/fluent_case_layer/driver/attempts.py:450-469 | A request is in order exactly if actor, verdict and reason are, and a promotion names a safe ref for a succeeded attempt while a rejection names none; what is decided is what was asked for, and a refusal names the first check that fails |
| StoreMeaning.DecisionSaysWhatWasAsked | src/fluent_case_layer/driver/attempts.py:521-574 | The appended decision has the fields of the record and of the request, and names the last promotion of its ref as predecessor exactly if there is one |
| StoreMeaning.EntryMeaning | src/fluent_case_layer/driver/attempts.py:576-612 | The entry that a promotion writes into the manifest has the fields of its decision |
| StoreMeaning.PublishingMeaning | src/fluent_case_layer/driver/attempts.py:576-612 | Publishing a promotion sets the entry of its ref, leaves every other entry and the mark of a rebuild as they are, and leaves the manifest intact; it is refused exactly for a manifest that is not |
| AttemptStore.AttemptStore.RebuildRefs | src/fluent_case_layer/driver/attempts.py:667-711 | Replays the ledger into objects and a fresh manifest; a crash leaves the objects of some prefix, and a refusal those before the first decision that cannot be replayed, with the old manifest |
| StoreMeaning.RebuiltMeaning | src/fluent_case_layer/driver/attempts.py:667-711 | A rebuilt manifest is intact, names the last promotion of every ref and nothing else, and the end of the ledger that it was rebuilt from |
| StoreSimulation.BeginSimulated | src/fluent_case_layer/driver/attempts.py:166-236 | Every outcome of a begin, crash included, is reached by protocol steps |
| StoreSimulation.CommitSimulated | src/fluent_case_layer/driver/attempts.py:471-493 | Every outcome of a locked commit, crash and late refusal included, is reached by protocol steps of its decider |
| StoreSimulation.DecideSimulated | src/fluent_case_layer/driver/attempts.py:441-493 | So is every outcome of a whole decision, from the unlocked load on |
| StoreSimulation.RebuildSimulated | src/fluent_case_layer/driver/attempts.py:667-711 | So is every outcome of a rebuild |
| StoreSimulation.UseStore | src/fluent_case_layer/driver/attempts.py:134-711 | Over any sequence of operations of the store object and crashes its files are those of a reachable state, with the manifest either current or behind by one |
| StoreProtocol.NextPreserves | src/fluent_case_layer/driver/attempts.py:166-301 | Every step of every process keeps the invariant: verified and linked ledger, promotions backed by retained finished records, manifest current or behind by one |
| StoreGuarantees.ManifestIsCurrentOrLagsByOne | src/fluent_case_layer/driver/attempts.py:576-612 | In every reachable state with the lock free, the manifest is the fold of the ledger or that fold without exactly the newest promotion, never both, and the consistency check tells them apart |
| StoreGuarantees.PromotionSucceedsWhenCurrent | src/fluent_case_layer/driver/attempts.py:471-493 | With a current manifest the three writes of any pending promotion go through, however long ago its record was loaded, and leave the manifest current with the new target |
| StoreGuarantees.LaggingRefusesPromotions | src/fluent_case_layer/driver/attempts.py:471-493 | In a lagging state every promotion is refused, and rejections still append |
| StoreGuarantees.LagEndsIff | src/fluent_case_layer/driver/attempts.py:667-711 | A lag ends exactly with the step in which a rebuild publishes its manifest |
| StoreGuarantees.NoPromotionUntilRebuilt | src/fluent_case_layer/driver/attempts.py:471-493 | Over any run, from a lagging state to the next published rebuild, the store stays lagging and no promotion is appended |
| StoreGuarantees.PredecessorIsManifestTarget | src/fluent_case_layer/driver/attempts.py:521-574 | A recorded predecessor is the target that the manifest held for the ref just before the promotion |
| StoreGuarantees.ManifestLeadsThroughHistory | src/fluent_case_layer/driver/attempts.py:576-612 | From the manifest entry of a ref, following predecessors visits every promotion of the ref once, newest first, and there is no other walk |
| StoreRecovery.RebuildRecoversIff | src/fluent_case_layer/driver/attempts.py:667-711 | From every reachable ledger, any manifest at all and whatever was written into run directories, a rebuild succeeds exactly if the run files of every promoted attempt still verify; it then yields the fold of the ledger, keeps an object per promotion, repeats to the same files and lets promotions pass again |
| StoreRecovery.RebuildRecovers | src/fluent_case_layer/driver/attempts.py:667-711 | In every run in which nobody writes into the directory of a finished attempt, a rebuild meets none of its errors |
| StoreGuarantees.AttemptsMoveOnce | src/fluent_case_layer/driver/attempts.py:238-301 | A step changes an attempt only from absent to running or from running to finished |
| StoreGuarantees.FinishedForever | src/fluent_case_layer/driver/attempts.py:238-301 | Over any run of the store, once an attempt is finished its record never changes again |
| StoreGuarantees.VerifiedFilesAreRecorded | src/fluent_case_layer/driver/attempts.py:399-439 | Two sets of run files that verify against a finished record agree on every file that it covers |
| StoreGuarantees.DecisionsAreForever | src/fluent_case_layer/driver/attempts.py:521-559 | Over any run of the store the decision ledger only grows |
| CandidateAttempts.ApplyCandidate | src/fluent_case_layer/driver/attempts.py:714-742 | Begin, run and finish: an application that succeeded under the id that the store uses is recorded as a success that loads and may be promoted, with the statuses that its gates had; the record of an attempt that succeeded holds the digests of a verified, legal and complete ledger of its own run and plan and of manifests that list all it records; it is not begun exactly if the store refuses, dies only where the process dies, and in a fresh directory finishing is refused exactly if something was recorded under another id than the store uses |
| CandidateAttempts.SuccessIsRecorded | src/fluent_case_layer/driver/attempts.py:262-301 | Finishing an application that succeeded, in a directory with any earlier files, is never refused, and the record is a success that loads, with the replayed statuses of its gates |
| CandidateAttempts.SuccessMayBePromoted | src/fluent_case_layer/driver/attempts.py:450-469 | Every request to promote such an attempt under a safe name, with a valid actor and a reason, passes the checks of a decision |
| CandidateAttempts.FreshRunCollects | src/fluent_case_layer/driver/attempts.py:303-331 | The files that an application writes into a fresh directory can be collected exactly if the run has the id of the attempt |
| CandidateAttempts.BlankIdNotCollected | src/fluent_case_layer/driver/attempts.py:31-37 | An id with a blank before it, which the store changes and under which the run cannot be collected |
| CandidateAttempts.VerifiedRunIsComplete | src/fluent_case_layer/driver/attempts.py:399-439 | Run files that verify against a record with the digests of a complete run are a complete run |
| CandidateAttempts.UseCandidates | src/fluent_case_layer/driver/attempts.py:714-742 | If attempts are finished by candidate applications only, then over any sequence of operations, writes to run files and crashes every promotion is of a complete run |
| CandidateAttempts.UseNewStore | src/fluent_case_layer/driver/attempts.py:134-742 | So it is for every use of a new store |
| CandidateAttempts.PromotedCandidateIsComplete | src/fluent_case_layer/driver/attempts.py:441-493 | Over any run of the store, an attempt that a candidate application finished is only promoted as a complete run, with the digest of its record; whenever it loads, its run files are that run |
| RunIdentity.RunRoot.Construct | src/fluent_case_layer/driver/executor.py:86-137 | Constructing an executor writes plan lock and metadata or compares with them; each refusal and each point of death says what it leaves |
| RunIdentity.RunRoot.ConstructAll | src/fluent_case_layer/driver/executor.py:86-137 | Constructions one after another, by any processes and with deaths between their writes, are such a sequence as the next rows speak of |
| RunIdentity.FirstWins | src/fluent_case_layer/driver/executor.py:118-137 | Over any sequence of constructions with any plans and requested ids, after the first that succeeds the two files never change, those that succeed have its plan and run id, and one is refused exactly if it asks for another |
| RunIdentity.FirstGives | src/fluent_case_layer/driver/executor.py:118-137 | What the first construction that succeeds writes: the plan with its hash, computed where it had none, and the run id that was asked for, or a generated one if none or an empty one was |
| RunIdentity.RefusalChangesNothing | src/fluent_case_layer/driver/evidence.py:16-25 | A refused construction leaves the files as they were |
| RunIdentity.FirstBinds | src/fluent_case_layer/driver/executor.py:98-99 | The first construction is never refused, and whichever of the two files it wrote before it died binds all later ones |
| RunLedger.SucceededIsPlanPrefix | src/fluent_case_layer/driver/events.py:90-95 | The succeeded actions of every ledger form a prefix of the plan |
| RunLedger.SucceedsAtMostOnce | src/fluent_case_layer/driver/executor.py:184-205 | No action succeeds twice, over all applications, resumes and crashes |
| RunLedger.StartsAfterDependencies | src/fluent_case_layer/driver/executor.py:184-189 | Every start comes after the successes of all dependencies of the action |
| RunLedger.NoStartAfterSuccess | src/fluent_case_layer/driver/executor.py:190-197 | An action is never started again once it has succeeded |
| RunLedger.RunSuccessIsComplete | src/fluent_case_layer/driver/executor.py:206-209 | A recorded run success comes after the success of every action of the plan and lists them |
| RunLedger.SkipsAreOldSuccesses | src/fluent_case_layer/driver/executor.py:170-194 | An action is skipped only after a resume before which it had succeeded, with no other session in between |
| RunLedger.AttemptsAreNumberedConsecutively | src/fluent_case_layer/driver/executor.py:240-253 | Across retries, crashes and resumes the attempts of each action are numbered 1, 2, 3 and so on |
| RunLedger.PromotionsFollowTrueGates | src/fluent_case_layer/driver/executor.py:625-660 | A checkpoint is promoted right after it is recorded, in an attempt all of whose gates are evaluated before and exactly true; a gate without a claim is not enough |
| RunLedger.GatesPrecedeRecords | src/fluent_case_layer/driver/executor.py:288-291 | In every attempt all gates are evaluated before anything is recorded |
| RunLedger.NothingRecordedWithFailedGate | src/fluent_case_layer/driver/executor.py:413-453 | No artifact or checkpoint is recorded in an attempt of which a required gate evaluates false, before or after |
| RunLedger.NoSuccessWithFailedGate | src/fluent_case_layer/driver/executor.py:413-453 | An attempt of which a required gate evaluates false does not succeed |
| RunLedger.ReplayMeaning | src/fluent_case_layer/driver/executor.py:610-623 | The replayed status of a category is failed if any of its gates ever failed, passed if none failed and one passed, and not evaluated otherwise |
| RunLedger.RestoreIsIdempotent | src/fluent_case_layer/driver/executor.py:610-623 | Restoring over a status that is already in step with the ledger changes nothing |
| PlanProgress.DependenciesSucceeded | src/fluent_case_layer/driver/executor.py:185-189 | When the loop reaches an entry of the plan, its dependencies are complete |
| PlanProgress.CompletedIdsAreSucceeded | src/fluent_case_layer/driver/executor.py:227-229 | The completed actions of a summary are the successes of the ledger in the order in which they happened |
| RunDirectory.SkipsFollowAcceptedResumes | src/fluent_case_layer/driver/executor.py:147-171 | The resume before a skip is one for which the adapter accepted the rehydration |
| RunDirectory.FilesStayKnown | src/fluent_case_layer/driver/executor.py:254-287 | An append keeps snapshots and manifests about attempts that have started, each snapshot written once |
| RunDirectory.AddKeepsListed | src/fluent_case_layer/driver/executor.py:625-660 | Adding to a manifest keeps every recorded entry listed |
| RunDirectory.AnnouncedIsListed | src/fluent_case_layer/driver/executor.py:632-660 | For every artifact or checkpoint that the ledger announces there is an entry in its manifest with that uri and role, of that action and attempt |
| PlanProgress.OrderedPlanIsExecutable | src/fluent_case_layer/driver/planner.py:444-477 | Whatever the planner orders meets what the executor needs: distinct ids and dependencies before dependents |
| PlanProgress.InjectedPlanIsExecutable | src/fluent_case_layer/driver/planner.py:275-291 | So does the order of the list with the injected launch |
| Executor.PlanExecutor.AppendEvent | src/fluent_case_layer/driver/events.py:58-88 | One verified append, what it does to successes, attempts, open attempt, session and gate status, with all files in order even if the process dies right after it |
| Executor.PlanExecutor.RestoreGateStatus | src/fluent_case_layer/driver/executor.py:610-623 | Afterwards the status in memory is the replay of the ledger |
| Executor.PlanExecutor.EvaluateGate | src/fluent_case_layer/driver/executor.py:413-453 | Evaluates all gates, its own first, then records every outcome in order, passes exactly if all are true, fails only if evaluation raises before anything is recorded or a required gate is false, and keeps memory in step with the ledger; what the outcomes mean is said below |
| Executor.PlanExecutor.RecordResult | src/fluent_case_layer/driver/executor.py:625-660 | Records artifacts and then checkpoints in manifest and ledger, promoting exactly the checkpoints whose action asks for it when the gates passed |
| Executor.PlanExecutor.TryAttempt | src/fluent_case_layer/driver/executor.py:261-303 | An attempt succeeds only with its conditions true and no required gate false, and then leaves exactly its request, snapshot, gate, record and success events, in that order; it fails only if something raised, a pre- or postcondition was not true of what was observed, a gate evaluation raises on it or a required gate is false of it; a failed or dead one leaves a prefix of such a sequence |
| Executor.PlanExecutor.Conclude | src/fluent_case_layer/driver/executor.py:287-303 | After the call, an attempt that meets its postconditions and has no required gate that raises or is false fails only if something raised |
| AttemptTrace.AttemptEventsInOrder | src/fluent_case_layer/driver/executor.py:261-303 | The events of a successful attempt, in order: request, snapshot, one outcome per gate, one record per artifact, the checkpoints, report, success |
| AttemptTrace.SavedMeaning | src/fluent_case_layer/driver/executor.py:636-649 | The checkpoints saved are those of the result, and after them the one that a promotion action names by its uri |
| AttemptTrace.PromotionEventsAt | src/fluent_case_layer/driver/executor.py:650-660 | With a promotion asked for and all gates true, each checkpoint is recorded and promoted, in order |
| AttemptTrace.AddedAllMembers | src/fluent_case_layer/driver/executor.py:632-650 | The manifest of a successful attempt keeps all its entries and gains only entries of that attempt |
| AttemptTrace.AddedAllHolds | src/fluent_case_layer/driver/executor.py:632-650 | And it has an entry of this attempt for every record |
| Executor.PlanExecutor.ExecuteAction | src/fluent_case_layer/driver/executor.py:240-322 | Retries until one success, or gives up after exactly the allowed number of attempts, numbered on from the recorded ones and from one within the invocation; every failure before the end announces a retry and the last one none; of each failed attempt it knows a cause as above, and the causes account for everything that raised; a snapshot or error that has no JSON text ends it at once, with that attempt still open |
| Executor.PlanExecutor.OpenSession | src/fluent_case_layer/driver/executor.py:140-180 | Refuses an existing ledger without a resume and changes nothing; records a refused rehydration and nothing else; otherwise starts or resumes with the successes of the ledger |
| Executor.PlanExecutor.RunEntry | src/fluent_case_layer/driver/executor.py:184-205 | Skips an entry exactly if it had succeeded, never finds a dependency missing, and otherwise executes or gives up |
| Executor.PlanExecutor.Apply | src/fluent_case_layer/driver/executor.py:139-238 | In every outcome, death included, the files are in order and the ledger has only grown; it dies only where the process dies, is refused and cannot resume only for the stated reasons, and fails for an action only after as many failed attempts as allowed, each with its cause, or because something raised; the dependency error never fires; a success and a failure come with the summary and last event that the ledger implies |
| Executor.PlanExecutor.Serve | src/fluent_case_layer/driver/executor.py:85-238 | Over any sequence of applications, resumes, crashes and restarts the ledger is legal, its successes a plan prefix, snapshots unique, manifests sorted, unique and never behind the ledger |
| Manifests.AddKeepsWellOrdered | src/fluent_case_layer/driver/evidence.py:70-90 | Adding an entry of the latest attempt keeps the manifest identity-unique and sorted by action, role, uri and attempt |
| Manifests.AddedMembers | src/fluent_case_layer/driver/evidence.py:70-90 | Adding loses no entry and brings in the new one exactly if its identity is new |
| Manifests.HoldsIff | src/fluent_case_layer/driver/evidence.py:74-81 | An entry counts as listed exactly if one with the same uri, role, action and attempt is in the manifest |
| Manifests.OrderedByFields | src/fluent_case_layer/driver/evidence.py:82-84 | In such a manifest an earlier entry has the smaller action, then role, then uri in code-point order, then the smaller attempt |
| SnapshotFiles.SameFileIff | src/fluent_case_layer/driver/evidence.py:32-44 | Two snapshots share a file exactly if escaped id, attempt and phase agree |
| SnapshotFiles.NameMeaning | src/fluent_case_layer/driver/evidence.py:32-44 | The file of a snapshot is named after the escaped id, the attempt with at least three digits, and the phase |
| SnapshotFiles.SafeIdMeaning | src/fluent_case_layer/driver/evidence.py:35 | An escaped id has no slash and no two dots in a row, and an id without them is used as it is |
| SnapshotFiles.FirstDotsReplaced | src/fluent_case_layer/driver/evidence.py:35 | Each pair of dots, from the left, becomes an underscore |
| SnapshotFiles.NeverOverwritesIff | src/fluent_case_layer/driver/evidence.py:32-44 | Distinct snapshots of a set of actions never share a file exactly if the escaping keeps their ids apart |
| SnapshotFiles.PlainIdsKeptApart | src/fluent_case_layer/schema/common.py:11-17 | Ids without a slash and without two dots in a row, as schema identifiers are, are kept apart |
| SnapshotFiles.SlashAndUnderscoreCollide | src/fluent_case_layer/driver/evidence.py:35-36 | Two different ids whose snapshots can share a file |
| SnapshotFiles.RecordedSnapshotsKeepTheirFiles | src/fluent_case_layer/driver/executor.py:254-259 | The snapshots of a run directory all have their own file if the escaping keeps the ids apart |
| GateMeaning.NumbersInOrder | src/fluent_case_layer/driver/executor.py:57-79 | A condition on numbers holds exactly if the number found is less than, at most, greater than or at least the number expected, as its operator says |
| GateMeaning.TextsInOrder | src/fluent_case_layer/driver/executor.py:57-79 | A condition on texts holds exactly if they stand in that relation in code-point order, where the first difference decides and a proper prefix comes first |
| GateMeaning.ListsInOrder | src/fluent_case_layer/driver/executor.py:57-79 | Of lists the first items that differ decide, as a condition of their own |
| GateMeaning.ListsByLength | src/fluent_case_layer/driver/executor.py:57-79 | Of two lists one of which starts the other the shorter one comes first |
| GateMeaning.NoOrder | src/fluent_case_layer/driver/executor.py:57-79 | An ordering of anything else raises |
| GateMeaning.NothingFound | src/fluent_case_layer/driver/executor.py:63-64 | Where the path is not found every condition but existence is false |
| GateMeaning.ExistenceAsked | src/fluent_case_layer/driver/executor.py:61-62 | Existence holds exactly if the path is found or, where false, zero or something empty is expected, exactly if it is not |
| GateMeaning.MembershipAsked | src/fluent_case_layer/driver/executor.py:77-78 | Membership is that of an item in a list, of a part in a text and of a key in a mapping; it raises exactly for what cannot be looked up |
| GateMeaning.AllConditionsMeaning | src/fluent_case_layer/driver/executor.py:401-411 | A list of conditions holds exactly if each does and raises exactly if one does |
| GateMeaning.ThresholdMeaning | src/fluent_case_layer/driver/executor.py:489-505 | A threshold gate passes exactly if the metric is below, at most, above or at least the limit, as its operator says, and raises for an operator without a name |
| GateMeaning.ThresholdEquality | src/fluent_case_layer/driver/executor.py:489-505 | With the operator `eq` it passes exactly if the metric is the limit |
| GateMeaning.RangeMeaning | src/fluent_case_layer/driver/executor.py:506-526 | A range gate passes exactly if the metric is at least the minimum and at most the maximum, as far as these are given |
| GateMeaning.NoClaimWithoutMetric | src/fluent_case_layer/driver/executor.py:466-487 | Without its metric a gate makes no claim for an adapter that evaluates nothing |
| GateMeaning.ThresholdWithoutMetric | src/fluent_case_layer/driver/executor.py:489-505 | For any other adapter a threshold then fails |
| GateMeaning.RangeWithoutMetric | src/fluent_case_layer/driver/executor.py:506-526 | A range then passes exactly if it demands nothing |
| GateMeaning.WindowWithoutMetric | src/fluent_case_layer/driver/executor.py:527-548 | A steady window then fails |
| GateMeaning.ArtifactMeaning | src/fluent_case_layer/driver/executor.py:549-584 | An artifact gate passes exactly if the manifest has an entry for the output of the stage, verified on disk where artifacts must be materialised; otherwise numerical and scientific ones make no claim |
| GateMeaning.UnknownGate | src/fluent_case_layer/driver/executor.py:585-589 | A gate of any other type fails |
| GateMeaning.GroupsInOrder | src/fluent_case_layer/driver/executor.py:413-434 | The outcomes of an action are that of its own gate and then those of its named gates, in order; they raise exactly if one does |
| GateMeaning.WindowIsTheEnd | src/fluent_case_layer/driver/executor.py:530 | The window of a positive number of samples is that many from the end, and everything if there are no more |
| GateMeaning.SteadyOverLastSamples | src/fluent_case_layer/driver/executor.py:527-548 | A steady-window gate passes exactly if none of the last samples exceeds another by more than relative_span * max(abs(mean), 1e-300) |
| GateMeaning.NotSteady | src/fluent_case_layer/driver/executor.py:531-533 | Too few samples, or one among the last that is no number, fail it |
| GateMeaning.SteadyGateReads | src/fluent_case_layer/driver/executor.py:455-465 | It reads the history of its monitor, and a history that is no list counts as empty |
| ScopeReads.StateReads | src/fluent_case_layer/driver/executor.py:387-399 | Conditions read the keys of the state as they are and below `state`, unless they are hidden by result and metrics |
| ScopeReads.MetricReads | src/fluent_case_layer/driver/executor.py:387-399 | Gates read the metrics of the result, and those of the state only if the result has none |
| ScopeReads.ResultReads | src/fluent_case_layer/driver/executor.py:387-399 | Below `result` are its details and its metrics |
| ScopeReads.RecordReads | src/fluent_case_layer/driver/executor.py:387-399 | Below `result`, artifacts and checkpoints are numbered from zero, each with its own fields |
| Gates.SteadySamplesNearMean | src/fluent_case_layer/driver/executor.py:527-548 | Then each sample lies within that distance of the mean, and for a span of at most one and a mean above the floor none has the opposite sign |
| Gates.SteadyInEveryUnit | src/fluent_case_layer/driver/executor.py:527-548 | Scaling all samples by a nonzero factor leaves the verdict unchanged while the mean stays above the floor |
| Gates.WindowExtremes | src/fluent_case_layer/driver/executor.py:537-545 | The extremes that the test uses are the smallest and the largest sample, and only those |
| StageGraph.AcyclicIffChainsBounded | src/fluent_case_layer/driver/planner.py:444-477 | A resolved graph is acyclic exactly if no dependency chain has as many steps as there are nodes |
| StageGraph.StuckSetHasCycle | src/fluent_case_layer/driver/planner.py:465-470 | A nonempty set of nodes each of which depends on another of the set holds a cycle |
| Planner.DependencyOrder | src/fluent_case_layer/driver/planner.py:444-477 | Succeeds exactly if ids are unique, edges resolve and the graph is acyclic; then sorts by longest dependency depth and authored position; on a cycle names exactly the actions on or above a cycle |
| Planner.OrderIsUnique | src/fluent_case_layer/driver/planner.py:444-477 | Only one sequence is such an order, so the sort is deterministic |
| Planner.InjectionMeaning | src/fluent_case_layer/driver/planner.py:275-291 | A list with a launch stays as it is; to any other a launch without dependencies, conditions or retries is put first, and exactly the actions that waited for nothing wait for it |
| Planner.OrderIsIdempotent | src/fluent_case_layer/driver/planner.py:444-477 | Sorting a sorted list changes nothing |
| Planner.DependenciesComeFirst | src/fluent_case_layer/driver/planner.py:444-477 | Every action comes after all of its dependencies |
| Planner.InjectionCommutesWithOrder | src/fluent_case_layer/driver/planner.py:275-291 | Ordering the injected list gives the launch first and then the order of the authored list |
| Planner.InjectionSafeIff | src/fluent_case_layer/driver/planner.py:275-291 | Without an authored launch, injection keeps a sortable list sortable exactly if no stage is already named launch-solver |
| Planner.EveryActionNeedsLaunch | src/fluent_case_layer/driver/planner.py:275-291 | Every authored action depends, directly or not, on the injected launch |
| StageDag.DepthFirstSearch.Visit | src/fluent_case_layer/schema/control.py:205-217 | Either settles the stage and all it requires without a cycle through them, or names a stage on a cycle |
| StageDag.CheckAcyclic | src/fluent_case_layer/schema/control.py:202-217 | Accepts exactly the acyclic graphs, and otherwise names a stage that reaches itself |
| StageDag.Ancestors | src/fluent_case_layer/schema/control.py:219-229 | Computes exactly the transitive closure of the requirements of a stage, on cyclic graphs too |
| StageDag.ValidStageDag | src/fluent_case_layer/schema/control.py:188-245 | Accepts exactly the documents with unique ids, resolved and acyclic requirements, whose stage inputs are declared outputs of ancestors |
| StageDag.AcceptedIsOrderable | src/fluent_case_layer/schema/control.py:188-245 | The two cycle checks agree: the authored list of an accepted document has unique ids, resolved edges and no cycle in the sense of the planner |
| StageDag.DocumentsHaveNoLaunch | src/fluent_case_layer/schema/control.py:169-181 | No stage type of a document launches the solver, so the planner always injects the launch |
| StageDag.AcceptedOrdersIff | src/fluent_case_layer/driver/planner.py:507-508 | An accepted document is ordered without error by the planner exactly if no stage is named launch-solver |
| StageDag.AcceptedDocumentMayNotOrder | src/fluent_case_layer/driver/planner.py:507-508 | A document that the validator accepts and the planner refuses as a duplicate |
| StageDag.AcceptedOrder | src/fluent_case_layer/driver/planner.py:507-508 | Otherwise the compiled order is the launch followed by the order of the authored stages |
| StageDag.ProducersPrecedeConsumers | src/fluent_case_layer/schema/control.py:230-245 | In the order that the planner compiles from an accepted document, launch included, the producer of each consumed stage output comes before its consumer |
| StatePaths.ValidateNonoverlappingPaths | src/fluent_case_layer/schema/state.py:135-144 | Sorting and looking forward only accepts a list exactly if no entry is repeated and none is a component-wise ancestor of another; the error names such a pair |
| StatePaths.UnrelatedPathSortsBetween | src/fluent_case_layer/schema/state.py:135-144 | An unrelated path can sort between a path and one below it, so that comparing neighbours only would not do |
| Merging.MergeIsIdempotent | src/fluent_case_layer/driver/util.py:93-101 | Applying the same overlay again changes nothing |
| Merging.OverlayLeafWins | src/fluent_case_layer/driver/util.py:93-101 | Whatever the overlay holds at a path, except a mapping, is in the result |
| Merging.BaseSurvivesOutsideOverlay | src/fluent_case_layer/driver/util.py:93-101 | Where base and overlay share mappings and the overlay says nothing further, the base stays as it was |
| Merging.MergeHolds | src/fluent_case_layer/driver/util.py:93-101 | At every path a merge holds what the overlay holds, and what the base holds exactly where the overlay leaves the path alone |
| Merging.LayerableIffAssociative | src/fluent_case_layer/driver/util.py:93-101 | Two upper layers can be combined first, under every base, exactly if the lower one has no other value where the upper one has a mapping |
| Merging.CombinedOverlayIsLayeredIff | src/fluent_case_layer/driver/campaign.py:164-198 | The combined overlay of defaults, entry and variant equals applying them one by one, to every case, exactly if the three are stackable |
| Dotted.ReadDotted | src/fluent_case_layer/driver/util.py:76-90 | The loop finds the value along the components of the path, through mappings and list positions, or nothing |
| DottedReads.ListReads | src/fluent_case_layer/driver/util.py:84-88 | Below the path of a list, the decimal text of a position reads that item, counted from the front, and nothing past the end |
| DottedReads.LeadingZerosRead | src/fluent_case_layer/driver/util.py:84-88 | Zeros before it change nothing |
| DottedReads.NoListRead | src/fluent_case_layer/driver/util.py:84-89 | A component that is not all digits reads nothing from a list |
| DottedReads.MappingReads | src/fluent_case_layer/driver/util.py:80-83 | Below the path of a mapping a component reads the value of that key, and nothing if there is none |
| DottedReads.EmptyComponentReads | src/fluent_case_layer/driver/util.py:80-89 | An empty component reads the empty key of a mapping and nothing from anything else |
| Dotted.GetAfterSet | src/fluent_case_layer/driver/util.py:104-113 | Reading a path back gives what was written there, for every path but the empty one, which reads the whole value |
| Dotted.UnrelatedReadUnchangedIff | src/fluent_case_layer/driver/util.py:76-113 | A write leaves the reading of an unrelated nonempty path alone exactly if there was nothing to read or what the paths share leads through mappings only; otherwise nothing is read there any more |
| Dotted.ListReadLost | src/fluent_case_layer/driver/util.py:104-113 | A write through a list that loses the elements of the list |
| Campaign.ChoicesAreTheProduct | src/fluent_case_layer/driver/campaign.py:71-77 | Every combination of options is produced exactly once |
| Campaign.MatrixOverlays | src/fluent_case_layer/driver/campaign.py:60-78 | Fails exactly if some key has no list of options, and otherwise gives one labelled variant per element of the Cartesian product, in its order |
| Campaign.ExpansionReadsBack | src/fluent_case_layer/driver/campaign.py:60-78 | With independent keys every key of every overlay reads back its chosen option |
| Campaign.ReadBackIffIndependent | src/fluent_case_layer/driver/campaign.py:72-77 | For options that are not mappings, independence of the keys is exactly what reading back needs |
| Slugs.SlugMeaning | src/fluent_case_layer/driver/campaign.py:56-57 | A slug is the trimmed text, or `value` exactly if nothing of the text but hyphens could be kept |
| Slugs.RunBecomesHyphen | src/fluent_case_layer/driver/campaign.py:56-57 | Each run of other characters becomes one hyphen, and what stands around it is not touched |
| Slugs.LabelsEqualIff | src/fluent_case_layer/driver/campaign.py:56-77 | Labels over the same keys are equal exactly if all value slugs are, if none has two underscores in a row |
| Campaign.CombinationsCollideIff | src/fluent_case_layer/driver/campaign.py:72-77 | Two combinations of a matrix share a case id exactly if their values have the same slugs, under the same condition |
| Campaign.MatrixIdsDistinctIff | src/fluent_case_layer/driver/campaign.py:193-197 | All combinations of a matrix have ids of their own exactly if no key has two options with the same slug, under the same condition |
| Campaign.UnderscoresShareId | src/fluent_case_layer/driver/campaign.py:72-77 | Two combinations without a value slug in common that share a case id |
| Campaign.CompileCampaign | src/fluent_case_layer/driver/campaign.py:193-217 | Compiles every variant of every entry with distinct ids, each at its place in authored order, and fails exactly if two cases would share an id, naming the first such id |
| Campaign.AllCasesMeaning | src/fluent_case_layer/driver/campaign.py:128-217 | The case of variant k of entry e comes after all cases of earlier entries and earlier variants, is named after both, and its overlay holds at every path what the variant says, else what the entry says, else what the defaults say; it stands for the three applied in turn, to every case, exactly if they are stackable |
| Campaign.ApplyCampaign | src/fluent_case_layer/driver/campaign.py:271-295 | Returns the same summary, in campaign order, for every order in which the workers finish |
| Campaign.SummaryMeaning | src/fluent_case_layer/driver/campaign.py:271-295 | The status is failed exactly if some case did not succeed, and every case is listed with its own outcome at its own place |
| JsonPointer.UnescapeEscape | src/fluent_case_layer/driver/evidence.py:119-121 | Unescaping an escaped token gives the token back, as sections 3 and 4 of RFC 6901 require |
| JsonPointer.ResolveJsonPointer | src/fluent_case_layer/schema/state.py:110-132 | The loop walks the unescaped tokens through members and canonical list positions, with an error for each way to miss |
| JsonPointer.TokenMeaning | src/fluent_case_layer/schema/state.py:110-132 | A token names a member of a mapping or else is missing there, is no index of a list unless it is the decimal text of a position, and goes through nothing else |
| JsonPointer.PositionMeaning | src/fluent_case_layer/schema/state.py:110-132 | The decimal text of a position names that item of a list, and is out of range past the end |
| JsonPointer.RenderResolves | src/fluent_case_layer/schema/state.py:110-132 | Resolving the pointer text of a token path walks that path |
| JsonPointer.RenderReflectsPrefix | src/fluent_case_layer/driver/evidence.py:112-150 | Pointer texts are equal, or one lies below the other, only if the token paths are |
| StructuralDiff.DiffIsEmptyIffEqual | src/fluent_case_layer/driver/evidence.py:112-150 | The report is empty exactly if the values are equal |
| StructuralDiff.PointersResolve | src/fluent_case_layer/driver/evidence.py:112-150 | Each reported pointer resolves to the recorded value on each side and fails to resolve where the value is missing |
| StructuralDiff.PointersAreApart | src/fluent_case_layer/driver/evidence.py:112-150 | Reported pointers are distinct and none lies above another |
| StructuralDiff.DiffValuesRenders | src/fluent_case_layer/driver/evidence.py:112-150 | The recursion over pointer texts reports exactly the token-level difference, written as pointers |
| DiffReplay.ReportLocates | src/fluent_case_layer/driver/evidence.py:112-150 | Read as pointers, the paths of a report are the token paths of the difference |
| DiffReplay.ReplayReconstructs | src/fluent_case_layer/driver/evidence.py:112-150 | Applying the reported changes to the places that their pointers name, additions and replacements in report order and then the removals from the end, turns the old value into the new one |
| DiffReplay.ReportOrderReplaysIff | src/fluent_case_layer/driver/evidence.py:112-150 | Applied in report order the reported changes reconstruct the new value exactly if no list loses more than one element |
| DiffReplay.TwoLossesFailInOrder | src/fluent_case_layer/driver/evidence.py:128-140 | The report about a list of two that becomes empty, which cannot be applied in its own order |

## Left out

- The PyFluent adapter, the property probe and the automation scripts: foreign calls into a solver. The adapter is an arbitrary environment here.
- Command line, catalogue, rendering, schema export, YAML loading and field validation: library behaviour and plumbing.
- SHA-256, fsync, atomic rename, timestamps, random ids, sleeping and path resolution: digests are injective constructors, writes are atomic steps, times are parameters.
- How numbers and digests are written, and the text of a matrix value: parameters. A number is assumed to be read as it was written.
- Numerals, surrogate pairs and `NaN` in JSON texts: the reader takes any run of numeral characters for a number and leaves its value to a parameter, reads no escaped surrogates, and knows no constants but `null`, `true` and `false`.
- An unreadable decision file: in the source every later decision and rebuild raises, while the protocol goes on as if the file could be read. Its results hold up to that point.
- Two writers on one run directory: the event ledger takes no lock, so one executor per directory is assumed.
- Two finishers of one attempt: finishing takes no store lock, so only the process that began an attempt finishes it.
- Digest agreement for rejections: a running attempt may be rejected and its digest changes when it finishes. Agreement is stated for promotions.
- Retry counts below one: the source does not check them; plans here allow at least one attempt.
- Floating point, and the equality of `True` with `1`: reals are exact and JSON scalars compare by structure.
- The pointer `/` that reports a replaced document: it is outside the pointer theorems, see above.
- Aliasing in `dotted_set` and `deep_merge`: nested mappings are values here, so the in-place update of a shared nested dictionary is not captured.
- Keyboard interrupts and input or output errors of a write: a write happens and the process may then die; it does not fail and go on. Only the refusal of a value that has no JSON text is modelled, for snapshots, results and error texts.
- The read that verifies the whole file before each append: the executor's ledger is verified at all times, and `HashChain.Read` is proved on its own.
- Output templates, runtime parameters and local file metadata: they may raise at any time, and what they compute is not modelled.
- Unicode digits that `isdigit` accepts beyond ASCII, and overlay keys that are not strings.
- The case loader and the compilation of each case: explicit variants come with a name, and cases with an overlay.
- Added: the list that a manifest sorts in place is a value here; the executor's methods assign the manifest field with it.
- Showing and listing attempts: they read and change nothing.
- ApplyCandidate: takes a plan as the planner compiles it, and a directory left over without an event log as empty.
- AppendVerifies: speaks of entries. Which texts survive the file is stated for its text (`FileReadsBackIff`, `RequestReadsBackIff`).
