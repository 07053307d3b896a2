# Verified model of the RTL-to-GDS teaching service and the search adapters

This project models, in Dafny, the parts of the platform that hold state, transform data or parse text, and proves
properties over all their inputs and all their histories.

* **The M1 service and its store** (`M1Model.dfy`, `M1Service.dfy`). `M1Model` gives every operation of the service as
  a function from a state to a state and a reply, with each raising exit and what it leaves behind. A state holds the
  five dictionaries, the six tables of encoded rows, and the history of creations, edits, submissions and
  observations. `M1Service` holds the mutable service and store, method by method proved to do what the functions say.
  The theorems quantify over all lists of calls: the gate before GDS (`M1Gate`), which versions can pass it
  (`M1Progress`, `M1Reach`), agreement of dictionaries and rows (`M1WriteThrough`, `M1Divergence`), ownership of runs
  (`M1Ownership`), lineage and freezing (`M1Lineage`), edits (`M1Edits`), observation (`M1Observe`), how long results
  stay (`M1Settled`) and verdicts (`M1Verdict`). `M1Calls` says, on the records alone, what each single call does in
  every state. Calls run one at a time: each is one step from state to state. The source serves them from the threads of a `ThreadingHTTPServer` without a lock
  (`apps/m1_rtl_to_gds/src/openroad_app_m1/server.py:442`), so what is said about the states the server reaches holds
  for requests that do not overlap; `M1Edits.InterleavedEditIsLost` shows an overlap that breaks it. The execution
  service is an arbitrary reply per call; where ownership and `M1Reach` need it, it is an injective map from
  idempotency keys to run ids.
* **The contract records** (`Values.dfy`, `Contracts.dfy`): validation, encoding, decoding, fingerprints.
* **Schema normalisation** (`StrictSchema.dfy`): what the closed schema accepts compared with what the schema accepts.
* **Canonical tree digests** (`TreeDigest.dfy`): the byte stream hashed for a directory tree and a decoder for it.
* **Candidates** (`Candidate.dfy`, `FlowVariant.dfy`, `Decimal.dfy`): validation, rounding, the recorded objective, and
  the job name with a reader that inverts it.
* **Search domains** (`SearchDomain.dfy`, `SeededProposal.dfy`): the validator of a frozen domain, the sampler without
  replacement, the filter of upstream suggestions.
* **Script proposals** (`PatchPaths.dfy`): the reader of patch headers and what an accepted patch may touch.
* **The MCP stdio client** (`McpClient.dfy`): reader thread and requester as interleaved steps, and the client object.

`Text.dfy` and `Wrappers.dfy` hold the string operations and result types they share.

Where the code does not meet what one would expect of it, the model follows the code and the exact condition is proved:

* `submit_simulation` updates its dictionary before it saves, so an accepted run id that the record refuses leaves
  dictionary and table apart (`M1WriteThrough.StepAgrees`).
* A spec with a tuple among its constraints comes back from the store with a list (`Contracts.SpecRoundTrip`), and one
  that JSON refuses stays in the dictionary without a row (`M1Divergence.OddConstraintsDiverge`).
* A schema that requires undeclared names, and a `oneOf` whose branches overlap, are not narrowed
  (`StrictSchema.UndeclaredNamesAreDropped`, `StrictSchema.OneOfNarrowsExactly`, `StrictSchema.OneOfCanWiden`).
* A direct recording can name a run that was never submitted, and direct evidence can contradict an outcome
  (`M1Divergence.ForeignRunIsLetThrough`, `M1Divergence.LateNoteContradicts`).
* The allowed path `.` names the root of a recipe (`PatchPaths.DotNamesTheRoot`), and a header path is recorded only up
  to its first space (`PatchPaths.SpaceEndsTheName`).
* A server message with an id and a true `__eof__` member, or a JSON text or list mentioning `id`, ends the request that
  meets it and is dropped (`McpClient.ConservationIsExact`).
* A domain that searches both padding parameters is refused even when its product is legal
  (`SearchDomain.LegalProductRefused`); this is one of the shape conditions of
  `SearchDomain.AcceptsExactlyLegalProducts`.

## Model

| member | source | states |
|---|---|---|
| `M1Gate.NoGdsRunWithoutChecks` | apps/m1_rtl_to_gds/src/openroad_app_m1/service.py:329-393 | in every history whose check results come from observed runs, each GDS submission follows a verification of the same input of the same version seen to succeed, then a simulation of it seen to succeed, with no edit of the version in between; the verification run it names is such a run |
| `M1Gate.NoGdsEvidenceWithoutChecks` | apps/m1_rtl_to_gds/src/openroad_app_m1/service.py:423-442 | for every successful `rtl_to_gds` evidence there is a call that filed it, and when that call was done the history held the same witnesses |
| `M1Progress.GateOpens` | apps/m1_rtl_to_gds/src/openroad_app_m1/service.py:303-393 | the counterpart of the gate: from every state in which a version, new, failed or withdrawn, stages an input under a frozen spec with a usable package, and whose runs no other version carries, verify, observe, simulate, observe and submit can be made and end in a GDS submission for that version |
| `M1Reach.ReachesGdsExactlyWhenItsRunsSucceed` | apps/m1_rtl_to_gds/src/openroad_app_m1/v2_client.py:74-80 | with an execution service that answers a task id always with the same run, and one terminal status per run: in every state reached by the server's calls, a ready version can still be taken to GDS if and only if its own verification run and its own simulation run succeed |
| `M1Reach.NothingPassesWithoutItsOwnRun` | apps/m1_rtl_to_gds/src/openroad_app_m1/service.py:155-181 | in no such history does a version pass a check whose own run did not succeed, and no GDS is submitted for it without both successes |
| `M1Divergence.SetupIsReady` | apps/m1_rtl_to_gds/src/openroad_app_m1/service.py:64-140 | a concrete history from the empty service after which a version is ready for its checks |
| `M1WriteThrough.StepAgrees` | apps/m1_rtl_to_gds/src/openroad_app_m1/service.py:303-321 | one call, returning or raising, leaves dictionaries and stored rows equal if and only if it is not one of two calls: a buildable simulation accepted under a run id longer or other than a bounded identifier, and the assessment of a valid spec, without questions or reason and with bounded owner and spec id, whose constraints are not JSON data |
| `M1Divergence.LongRunDiverges` | apps/m1_rtl_to_gds/src/openroad_app_m1/service.py:313-321 | the first failure at a reachable state: a history from the empty service ending in a simulation accepted under a run id of 161 characters leaves store and dictionary apart |
| `M1Divergence.OddConstraintsDiverge` | apps/m1_rtl_to_gds/src/openroad_app_m1/service.py:93-95 | the second failure, for every single constraint value that is not JSON data: with a tuple the call returns, with a value `json.dumps` refuses it raises after the dictionary was updated; store and dictionary are apart either way |
| `M1Divergence.TupleAndSetDiverge` | apps/m1_rtl_to_gds/src/openroad_app_m1/service.py:93-95 | both endings on concrete values: with a tuple the assessment returns, with a set it raises a type error and leaves no row |
| `M1WriteThrough.HistoryAgrees` | apps/m1_rtl_to_gds/src/openroad_app_m1/service.py:570-574 | over every history of calls without those two, decoding the rows gives exactly the in-memory records |
| `M1WriteThrough.ReopeningGivesTheRunningService` | apps/m1_rtl_to_gds/src/openroad_app_m1/service.py:26-52 | a service reopened on the store after such a history is the service that was running, and nothing else loads from it |
| `M1WriteThrough.LoadingGivesTheDictionary` | apps/m1_rtl_to_gds/src/openroad_app_m1/store.py:137-161 | reading all rows of an agreeing table gives the dictionary, whatever the order of the rows |
| `M1Ownership.GdsTaskIdParses` | apps/m1_rtl_to_gds/src/openroad_app_m1/server.py:158-166 | the GDS task id gives back its version and its PDK for every PDK name without a hyphen, whatever the version id contains |
| `M1Ownership.TaskIdsDetermineTasks` | apps/m1_rtl_to_gds/src/openroad_app_m1/service.py:405-412 | task ids, which are the idempotency keys, differ across kind, version and PDK |
| `M1Ownership.OneVersionPerRun` | apps/m1_rtl_to_gds/src/openroad_app_m1/service.py:323-327 | with an execution service that maps keys to runs injectively, a run was submitted for one version only |
| `M1Ownership.OnlyTheOwnerIsLetThrough` | apps/m1_rtl_to_gds/src/openroad_app_m1/service.py:535-551 | in every state reached by the server's calls, one at a time, and by direct recordings that name a run submitted for the version, the check returns only for a run submitted for a version whose session has that owner, and raises a permission error only when the run belongs to someone else |
| `M1Ownership.TheCheckIsExact` | apps/m1_rtl_to_gds/src/openroad_app_m1/service.py:535-551 | for every kind of run: the check returns if and only if the run is known (its owner stored, carried by a version, or named by evidence) and the owner's; an unknown run is a key error, another's a permission error |
| `M1Ownership.RecordingsOwnedExactly` | apps/m1_rtl_to_gds/src/openroad_app_m1/service.py:155-181 | a direct recording that returns keeps the ownership of runs if and only if it names a run that was submitted for the version |
| `M1Divergence.ForeignRunIsLetThrough` | apps/m1_rtl_to_gds/src/openroad_app_m1/service.py:535-551 | a history ending in a direct recording under a run never submitted, after which the session's owner is let through to that run |
| `M1Ownership.VerdictOwned` | apps/m1_rtl_to_gds/src/openroad_app_m1/server.py:157-166 | a finished GDS run's verdict, filed under the version read off the task id, keeps every run and evidence with the owner of the session it was submitted for |
| `M1Ownership.OrderDoesNotMatter` | apps/m1_rtl_to_gds/src/openroad_app_m1/service.py:535-551 | the answer is the same for every iteration order of the dictionaries |
| `M1Ownership.GdsRunsAreOpenToExactlyTheirOwner` | apps/m1_rtl_to_gds/src/openroad_app_m1/server.py:365-372 | for every submitted GDS run the check passes if and only if the caller owns the session of the run's version |
| `M1Lineage.OriginsNeverChange` | apps/m1_rtl_to_gds/src/openroad_app_m1/service.py:112-140 | along every history a version keeps its spec, RTL digest, source reference, generator and parent, and never disappears |
| `M1Edits.EditWithdrawsTheParent` | apps/m1_rtl_to_gds/src/openroad_app_m1/service.py:121-130 | an edit that passes its own checks withdraws the parent's two results and its run ids, even when the child is then refused |
| `M1Edits.EditedVersionsDoNotPass` | apps/m1_rtl_to_gds/src/openroad_app_m1/service.py:155-181 | from the edit until a verification call for the parent returns, in every history of calls, late observations, direct recordings and refused verifications included, both its checks stay withdrawn, no simulation or GDS is submitted for it, and every successful GDS evidence about it was there before, whichever call records evidence; without verification calls nothing at all is submitted |
| `M1Edits.EditedVersionsAreRefused` | apps/m1_rtl_to_gds/src/openroad_app_m1/service.py:242-249 | after any such history building a simulation or a GDS task for it and recording successful evidence about it raise |
| `M1Edits.InterleavedEditIsLost` | apps/m1_rtl_to_gds/src/openroad_app_m1/service.py:155-167 | why calls have to run one at a time: when an edit lands between the read and the write of a recording, it is lost if and only if the version read before it can be recorded, and the version then has the recorded status |
| `M1Lineage.FrozenIsForever` | apps/m1_rtl_to_gds/src/openroad_app_m1/service.py:98-110 | a frozen session is never changed again by any history |
| `M1Lineage.LineageIsAForest` | apps/m1_rtl_to_gds/src/openroad_app_m1/service.py:112-140 | in every reachable state each version's spec is frozen, parent chains stay inside one spec and among stored versions, and no chain returns to its start |
| `M1Lineage.GdsTasksAreFaithful` | apps/m1_rtl_to_gds/src/openroad_app_m1/service.py:361-393 | every GDS task in a history carries the fingerprint stored at the freeze, the frozen spec's top, design and clock, and the digest and input its version was created with; a clocked task has a positive period |
| `M1Observe.ObserveRunIsPointwise` | apps/m1_rtl_to_gds/src/openroad_app_m1/service.py:553-562 | when `observe_run` returns, the loop over its stale snapshot did the simultaneous update of exactly the running fields carrying that run; it returns if and only if no version blocks, and when it raises every version is untouched, half recorded or recorded |
| `M1Observe.FirstStatusSticks` | apps/m1_rtl_to_gds/src/openroad_app_m1/service.py:553-562 | right after a returning observation, another observation of the run, with any terminal status and in any order, returns and changes no version |
| `M1Settled.FirstStatusStaysUntilReopened` | apps/m1_rtl_to_gds/src/openroad_app_m1/service.py:553-562 | the first terminal status a returning observation records stays along every history of calls, further observations of the run included, until a call reopens the check |
| `M1Settled.SettledChecksStay` | apps/m1_rtl_to_gds/src/openroad_app_m1/service.py:155-181 | along every history a check that is not running keeps its status and its run unless a call reopens it: a returning submission or direct recording for the version, an edit of it, or a simulation submitted for it |
| `M1Settled.ReopenedVerification` | apps/m1_rtl_to_gds/src/openroad_app_m1/service.py:303-311 | each reopening call replaces the verification: running with the run it was given, the recorded result, or withdrawn |
| `M1Settled.ReopenedSimulation` | apps/m1_rtl_to_gds/src/openroad_app_m1/service.py:313-321 | each reopening call replaces the simulation: running with the run it was given, also when the record is then refused, the recorded result, or withdrawn |
| `M1Observe.WhatBlocks` | apps/m1_rtl_to_gds/src/openroad_app_m1/service.py:169-181 | the exact reason for raising inside the loop: a running simulation of the run on a version that does not pass verification |
| `M1Verdict.NothingMissing` | apps/m1_rtl_to_gds/src/openroad_app_m1/service.py:453-465 | the missing list is empty if and only if the five kinds, complete non-empty metrics, tool-chain snapshot and plan are present |
| `M1Verdict.RefsAreDistinct` | packages/contracts/src/openroad_platform_contracts/evidence_exchange.py:49-54 | the five artifact references of built evidence are pairwise distinct, as the record demands, and one of them is the GDS |
| `M1Verdict.VerdictIsDecidedOnce` | apps/m1_rtl_to_gds/src/openroad_app_m1/service.py:444-506 | a second recording of a run returns the first verdict and changes nothing; a first verdict is evidence if and only if the run is complete; a raising call changes nothing |
| `M1Verdict.CompleteRunsReturnExactlyWhen` | apps/m1_rtl_to_gds/src/openroad_app_m1/service.py:482-506 | the first recording of a complete run returns if and only if its version has passed both checks under a stored session, all names are identifiers, and the reported ids and digests have the record's form |
| `M1Verdict.IncompleteRunsReturnExactlyWhen` | apps/m1_rtl_to_gds/src/openroad_app_m1/service.py:465-481 | the first recording of an incomplete run returns if and only if its run, version and PDK names and the references to all its named artifacts are bounded identifiers |
| `M1Verdict.NewEvidenceTellsTheRun` | apps/m1_rtl_to_gds/src/openroad_app_m1/service.py:483-506 | newly filed evidence names its run, the PDK, the time and a version that passed both checks, its spec and owner; its references name the run's last artifact of each of the five kinds, its two digests are those of the first snapshot and the first plan, and its own digest is that of version, run, references and PDK |
| `M1Verdict.NewOutcomeTellsTheRun` | apps/m1_rtl_to_gds/src/openroad_app_m1/service.py:465-481 | a newly filed incomplete outcome is the run's, for the version and the PDK of the recording; its reason names exactly the kinds the run has no artifact of, then incomplete metrics, a missing snapshot and a missing plan, in this order; its references are all artifacts of the run with a kind and an id, in order |
| `M1Verdict.VerdictsAreFinal` | apps/m1_rtl_to_gds/src/openroad_app_m1/service.py:444-506 | in every history without a contradicting direct recording no run has both an evidence and an incomplete outcome, and a verdict once given stays; evidence stays in any history |
| `M1Verdict.OneVerdictExactly` | apps/m1_rtl_to_gds/src/openroad_app_m1/service.py:423-442 | no call changes or removes a verdict, and from a state without contradicting verdicts a call leads to one with if and only if it is a direct recording of evidence, accepted under the id of a run that has an incomplete outcome |
| `M1Divergence.LateNoteContradicts` | apps/m1_rtl_to_gds/src/openroad_app_m1/service.py:423-442 | a history ending in such a direct recording, after which a run has both kinds of verdict |
| `M1Calls.CreatesExactly` | apps/m1_rtl_to_gds/src/openroad_app_m1/service.py:112-140 | in every reachable state a new version is stored if and only if its session is stored and frozen, the source is not blank, its parent is stored under the same spec, and its members have the record's form; it then is the record with that spec, the digest of that source, both checks not run, and of the other versions only the parent changes, to withdrawn |
| `M1Calls.CreationReturns` | apps/m1_rtl_to_gds/src/openroad_app_m1/service.py:112-140 | the same condition in every state, reachable or not, and which error each refusal raises |
| `M1Calls.CreationLeaves` | apps/m1_rtl_to_gds/src/openroad_app_m1/service.py:121-140 | what is left in every case: the parent withdrawn, and nothing else, when the child is refused; the history gains the edit and the creation |
| `M1Calls.CreationReplies` | apps/m1_rtl_to_gds/src/openroad_app_m1/service.py:131-140 | a creation that returns hands back the version it stored |
| `M1Calls.AssessmentsDo` | apps/m1_rtl_to_gds/src/openroad_app_m1/service.py:64-96 | when an assessment returns, with which error it raises, and which of the four records it stores and returns: unsupported with its reason, asking the given questions, asking the default or the period question, or specified; a record that JSON refuses is stored although the call raises |
| `M1Calls.FreezesDo` | apps/m1_rtl_to_gds/src/openroad_app_m1/service.py:98-110 | a freeze returns if and only if the stored session is a valid, serialisable, specified one; it sets its state and fingerprint, returns it, and does nothing else; a refusal changes nothing |
| `M1Calls.RegistrationsDo` | apps/m1_rtl_to_gds/src/openroad_app_m1/service.py:183-198 | a package is stored if and only if its spec is frozen, it is a valid package of that spec, and there is none yet |
| `M1Calls.RecordedVerificationsDo` | apps/m1_rtl_to_gds/src/openroad_app_m1/service.py:155-167 | when a direct recording returns, and that it sets status and run of that version's verification, returns the version, and does nothing else |
| `M1Calls.RecordedSimulationsDo` | apps/m1_rtl_to_gds/src/openroad_app_m1/service.py:169-181 | the same for a simulation, which needs a passed verification |
| `M1Calls.ObservationsDo` | apps/m1_rtl_to_gds/src/openroad_app_m1/service.py:553-562 | with the four terminal statuses spelled out: an observation with any other status does nothing; otherwise it returns if and only if every version can take it, and every check running under the run is passed for `succeeded` and failed for the other three, in all versions at once |
| `M1Calls.VerificationsDo` | apps/m1_rtl_to_gds/src/openroad_app_m1/service.py:200-240 | when a verification is submitted, every state-dependent member of its task, when the version is set to running, and the run returned |
| `M1Calls.SimulationsDo` | apps/m1_rtl_to_gds/src/openroad_app_m1/service.py:242-301 | the same for a simulation; the version is set to running even when its record is refused |
| `M1Calls.OracleIsExact` | apps/m1_rtl_to_gds/src/openroad_app_m1/service.py:254-268 | the staged oracle is the one reference of the package, an artifact or a source by its prefix, with a non-empty id |
| `M1Calls.GdsSubmissionsDo` | apps/m1_rtl_to_gds/src/openroad_app_m1/service.py:323-393 | a GDS task is submitted if and only if both checks passed for the one PDK under a frozen spec with a package and, when clocked, a period; the error of each refusal; every state-dependent member of the task; the run is stored under the session's owner and returned, and nothing else changes |
| `M1Calls.EvidenceRecordingsDo` | apps/m1_rtl_to_gds/src/openroad_app_m1/service.py:423-442 | the exact condition under which evidence of any kind is filed and returned, and that nothing else changes |
| `M1Calls.RequestsDo` | apps/m1_rtl_to_gds/src/openroad_app_m1/server.py:148-170 | a request by the run's owner observes the run and, for a successful GDS run, records the verdict of the version and PDK its task id was made of; a malformed run id or another caller changes nothing |
| `M1Calls.EqualFingerprintsMeanEqualSpecs` | apps/m1_rtl_to_gds/src/openroad_app_m1/service.py:361-368 | in every history, with a collision-free hash, two GDS tasks carry the same fingerprint if and only if their versions were made for equal frozen specs, up to what conversion rewrites in the constraints |
| `M1Service.LoadTable` | apps/m1_rtl_to_gds/src/openroad_app_m1/store.py:137-161 | decoding a table row by row loads exactly what the rows say and fails exactly when some row does not decode |
| `M1Service.M1Service.Open` | apps/m1_rtl_to_gds/src/openroad_app_m1/service.py:26-52 | the constructor's reload: every dictionary is loaded from its table; it fails exactly on an unreadable store; on a store left by any history without diverging calls it opens the service that was running |
| `M1Service.M1Service.AssessSpec` | apps/m1_rtl_to_gds/src/openroad_app_m1/service.py:64-96 | the object's change is the specified transition: the three states of an assessed spec and the refusals |
| `M1Service.M1Service.FreezeSpec` | apps/m1_rtl_to_gds/src/openroad_app_m1/service.py:98-110 | the object's change is the specified transition: only a valid specified session freezes, storing the fingerprint of its spec; `M1Calls.FreezesDo` and `Contracts.FingerprintsTellTheSpec` say on the records what that is |
| `M1Service.M1Service.CreateVersion` | apps/m1_rtl_to_gds/src/openroad_app_m1/service.py:112-140 | the object's change is the specified transition, with the parent withdrawn and saved before the child is validated; `M1Calls.CreatesExactly` says on the records when and what it stores |
| `M1Service.M1Service.RecordVerification` | apps/m1_rtl_to_gds/src/openroad_app_m1/service.py:155-167 | the object's change is the specified transition, refused on an invalidated version |
| `M1Service.M1Service.RecordSimulation` | apps/m1_rtl_to_gds/src/openroad_app_m1/service.py:169-181 | the object's change is the specified transition, refused without a passed verification |
| `M1Service.M1Service.RegisterPackage` | apps/m1_rtl_to_gds/src/openroad_app_m1/service.py:183-198 | the object's change is the specified transition: one package per frozen spec |
| `M1Service.M1Service.SubmitVerification` | apps/m1_rtl_to_gds/src/openroad_app_m1/service.py:303-311 | the object's change is the specified transition; the record is saved before the dictionary changes |
| `M1Service.M1Service.SubmitSimulation` | apps/m1_rtl_to_gds/src/openroad_app_m1/service.py:313-321 | the object's change is the specified transition; the dictionary changes before the record is saved |
| `M1Service.M1Service.SubmitGds` | apps/m1_rtl_to_gds/src/openroad_app_m1/service.py:323-327 | the object's change is the specified transition: the run's owner is stored, no version changes |
| `M1Service.M1Service.ObserveRun` | apps/m1_rtl_to_gds/src/openroad_app_m1/service.py:553-562 | the loop over the snapshot does what the recursive specification does, up to the iteration that raises; `M1Calls.ObservationsDo` says on the records which statuses end which checks how |
| `M1Service.M1Service.RecordEvidence` | apps/m1_rtl_to_gds/src/openroad_app_m1/service.py:423-442 | the object's change is the specified transition with all its refusals |
| `M1Service.M1Service.RecordGdsEvidence` | apps/m1_rtl_to_gds/src/openroad_app_m1/service.py:444-506 | the object's change is the specified transition: an earlier verdict is returned, otherwise an outcome or an evidence is stored; `M1Verdict.NewOutcomeTellsTheRun` and `M1Verdict.NewEvidenceTellsTheRun` say on the records what they hold |
| `M1Service.M1Service.AssertRunOwner` | apps/m1_rtl_to_gds/src/openroad_app_m1/service.py:535-551 | the search through stored owner, versions and evidence answers as specified and changes nothing |
| `M1Service.M1Store.PutVersion` | apps/m1_rtl_to_gds/src/openroad_app_m1/store.py:52-59 | a row is replaced when the record validates, otherwise the table stays as it is |
| `M1Service.M1Store.PutEvidence` | apps/m1_rtl_to_gds/src/openroad_app_m1/store.py:70-77 | a row is replaced when the record validates, otherwise the table stays as it is |
| `Contracts.TheForms` | apps/m1_rtl_to_gds/src/openroad_app_m1/models.py:89-102 | the characters and lengths of identifiers, of the bounded ids of the M1 records, and of digests, character by character |
| `Contracts.SpecRoundTrip` | packages/contracts/src/openroad_platform_contracts/rtl_frontend.py:98-115 | decoding an encoded valid spec gives it back if and only if the conversion has nothing to rewrite in its constraints (tuples become lists), and its fingerprint never changes |
| `Contracts.FingerprintsTellTheSpec` | packages/contracts/src/openroad_platform_contracts/rtl_frontend.py:98-101 | with a collision-free hash two valid specs have the same fingerprint if and only if they agree in every member, constraints compared in their JSON form; with plain constraints if and only if they are equal |
| `Contracts.PortRoundTrip` | packages/contracts/src/openroad_platform_contracts/rtl_frontend.py:44-53 | decode after encode is the identity on valid ports |
| `Contracts.PackageRoundTrip` | packages/contracts/src/openroad_platform_contracts/rtl_frontend.py:147-158 | decode after encode is the identity on valid verification packages |
| `Contracts.EvidenceRoundTrip` | packages/contracts/src/openroad_platform_contracts/evidence_exchange.py:76-86 | decode after encode is the identity on valid evidence |
| `Contracts.SessionRoundTrip` | apps/m1_rtl_to_gds/src/openroad_app_m1/models.py:133-154 | decode after encode is the identity on a valid session if and only if the conversion has nothing to rewrite in its spec's constraints |
| `Contracts.VersionRoundTrip` | apps/m1_rtl_to_gds/src/openroad_app_m1/models.py:190-212 | decode after encode is the identity on valid versions |
| `Contracts.OutcomeRoundTrip` | apps/m1_rtl_to_gds/src/openroad_app_m1/models.py:64-86 | decode after encode is the identity on valid run outcomes |
| `Values.PrimitiveKeepsExactlyPlain` | packages/contracts/src/openroad_platform_contracts/platform.py:57-69 | the conversion of field values changes nothing exactly on values without tuples and other rewritten members |
| `Values.PrimitiveIsPlain` | packages/contracts/src/openroad_platform_contracts/platform.py:57-69 | converted values are plain, and JSON refuses a converted value exactly when it refused the original |
| `Values.PrimitiveIsTheForm` | packages/contracts/src/openroad_platform_contracts/platform.py:57-69 | the conversion gives the one JSON form of a value: lists for lists and tuples in their order, mappings member by member |
| `StrictSchema.Narrows` | integrations/a2_orfo/a2_orfo_managed_provider.py:37-57 | for every schema built from objects, arrays, `anyOf`, `allOf` and `oneOf` whose required names are declared and whose `oneOf` branches exclude each other, what the normalised schema accepts the schema accepts (sections 10.2.1.1, 10.2.1.2, 10.3.1.2, 10.3.2.1 and 10.3.2.3 of JSON Schema Core 2020-12, section 6.5.3 of JSON Schema Validation 2020-12) |
| `StrictSchema.StrictAcceptsTheFilled` | integrations/a2_orfo/a2_orfo_managed_provider.py:37-57 | for every schema, the normalised one accepts exactly the instances that satisfy it with every reached object filled in: all declared members there and no other; types and value assertions unchanged |
| `StrictSchema.NarrowsExactly` | integrations/a2_orfo/a2_orfo_managed_provider.py:47-51 | for an object schema the condition on required names is exact: an instance the normalised schema accepts is accepted by the schema if and only if the required names are declared |
| `StrictSchema.FixedPointsAreTheSealedSchemas` | integrations/a2_orfo/a2_orfo_managed_provider.py:37-57 | normalising leaves a schema alone if and only if every object node it reaches is closed and requires all its properties; it is idempotent |
| `StrictSchema.OneOfNarrowsExactly` | integrations/a2_orfo/a2_orfo_managed_provider.py:54-56 | at a `oneOf`, narrowing holds for an instance if and only if no second branch accepts it in its original form |
| `StrictSchema.UndeclaredNamesAreDropped` | integrations/a2_orfo/a2_orfo_managed_provider.py:47-51 | a concrete schema requiring an undeclared name, and the empty object, which the normalised schema accepts and the schema refuses |
| `StrictSchema.OneOfCanWiden` | integrations/a2_orfo/a2_orfo_managed_provider.py:54-56 | a concrete `oneOf` schema and instance that the normalised schema accepts and the schema refuses |
| `TreeDigest.DecodesBack` | integrations/orfs_agent/orfs_agent_reproduction_adapter.py:69-80 | the byte stream of any list of file and link records decodes back to that list, for NUL-free names and targets, newlines in targets included |
| `TreeDigest.Stream` | integrations/orfs_agent/orfs_agent_reproduction_adapter.py:69-80 | the loop over the sorted listing feeds exactly the encoding of the kept files and links |
| `TreeDigest.StreamStandsForContent` | integrations/a2_orfo/a2_orfo_adapter.py:58-67 | two trees give the same stream if and only if they agree on every kept link and file, whatever the order of their listings |
| `TreeDigest.StreamsAgreeExactly` | integrations/orfs_agent/orfs_agent_reproduction_adapter.py:69-80 | two streams are equal if and only if the trees show the same link or file at every path whose first component is not ignored |
| `TreeDigest.PathLessIs` | integrations/orfs_agent/orfs_agent_reproduction_adapter.py:71 | the order of the listing: by components, each compared as text, a directory before what it holds |
| `TreeDigest.TextLessIs` | integrations/orfs_agent/orfs_agent_reproduction_adapter.py:71 | components are compared character by character |
| `TreeDigest.ExampleStream` | integrations/orfs_agent/orfs_agent_reproduction_adapter.py:69-80 | the stream of a concrete tree, byte by byte |
| `TreeDigest.DigestsIdentifyContent` | integrations/orfs_agent/orfs_agent_reproduction_adapter.py:69-80 | with a collision-free hash, digests are equal if and only if the contents are |
| `Candidate.ValidateCandidate` | integrations/orfs_agent/orfs_agent_reproduction_adapter.py:178-213 | accepts exactly the complete candidates with numbers in range, integral where integers are asked for, and returns their values |
| `Candidate.TheDomain` | integrations/orfs_agent/orfs_agent_reproduction_adapter.py:178-213 | the accepted points, parameter by parameter in decimals: four real intervals, one by platform, and eight integer ranges, with no relation between the paddings |
| `Candidate.AcceptsTheDomain` | integrations/orfs_agent/orfs_agent_reproduction_adapter.py:178-213 | no legal candidate is refused |
| `Candidate.ExecutesTheNearest` | integrations/orfs_agent/orfs_agent_reproduction_adapter.py:245-261 | every executed value is the nearest multiple of 0.001, ties to the even one, and integer parameters are executed as they are |
| `Candidate.RoundingStaysLegal` | integrations/orfs_agent/orfs_agent_reproduction_adapter.py:245-261 | over exact reals, the execution mapping keeps every legal candidate legal, changes nothing the second time, and moves no value by more than 0.0005 |
| `Candidate.RecordedObjectiveIsClose` | integrations/orfs_agent/orfs_agent_reproduction_adapter.py:528-552 | the recorded `ECP_final` is within 0.0005 of the value for the executed clock, and the fractional loss within 0.0005 over the baseline |
| `Candidate.RecordedFigures` | integrations/orfs_agent/orfs_agent_reproduction_adapter.py:539-552 | the recorded period is the one at which the reported slack is used up; the loss weighs wire length and period by the baseline, which itself loses 2 |
| `FlowVariant.ValueReadsBack` | integrations/orfs_agent/orfs_agent_reproduction_adapter.py:216-242 | printing a value in thousandths with its trailing zeros dropped loses nothing |
| `FlowVariant.PrintsDecimals` | integrations/orfs_agent/orfs_agent_reproduction_adapter.py:216-242 | a printed number of thousandths is its decimal notation without superfluous zeros |
| `FlowVariant.JobNameIsLaidOut` | integrations/orfs_agent/orfs_agent_reproduction_adapter.py:216-242 | the job name is the fourteen labels, spelled out, each followed by the value of its parameter |
| `FlowVariant.JobNameReadsBack` | integrations/orfs_agent/orfs_agent_reproduction_adapter.py:216-242 | a reader gives back design, platform and all twelve values from the job name |
| `FlowVariant.SameDirectoryIffSameExecution` | integrations/orfs_agent/orfs_agent_reproduction_adapter.py:511-514 | two legal candidates share a result directory if and only if design, platform and all twelve rounded values agree |
| `SeededProposal.ProductIsTheProduct` | integrations/seeded_random_control/seeded_random_control_adapter.py:60-67 | the enumeration lists every way of picking one value per list, each once, as many as the product of the lengths |
| `SeededProposal.ProductOrder` | integrations/seeded_random_control/seeded_random_control_adapter.py:67 | the order of the enumeration: the last list varies fastest |
| `SeededProposal.DedupeKeepsFirsts` | integrations/seeded_random_control/seeded_random_control_adapter.py:64 | repeated values are dropped behind their first occurrence, in order |
| `SeededProposal.UnseenKeepsTheOrder` | integrations/seeded_random_control/seeded_random_control_adapter.py:66-73 | the legal list keeps the order of the enumeration |
| `SeededProposal.LegalListIsExact` | integrations/seeded_random_control/seeded_random_control_adapter.py:66-73 | the legal list holds exactly the domain points whose fingerprint is not excluded, without repeats |
| `SeededProposal.Shuffle` | integrations/seeded_random_control/seeded_random_control_adapter.py:78 | the in-place exchanges from the last position down compute the specified shuffle of their picks |
| `SeededProposal.ShuffleReachesExactlyThePermutations` | integrations/seeded_random_control/seeded_random_control_adapter.py:78 | the shuffle gives a permutation for all picks, and every permutation for some picks |
| `SeededProposal.PicksAreRecoverable` | integrations/seeded_random_control/seeded_random_control_adapter.py:78 | different picks give different orders, so that every order belongs to exactly one way of picking and equally likely picks make equally likely samples |
| `SeededProposal.EveryBatchIsAnswered` | integrations/seeded_random_control/seeded_random_control_adapter.py:78-91 | every list of `count` different legal points is the answer for some picks |
| `SeededProposal.Propose` | integrations/seeded_random_control/seeded_random_control_adapter.py:45-98 | fails if and only if the request is ill-formed or fewer than `count` legal points remain; otherwise answers the first `count` points of the shuffled legal list, which are distinct, unexcluded domain points, and the two reported cardinalities |
| `SeededProposal.ReportedCardinality` | integrations/seeded_random_control/seeded_random_control_adapter.py:94-95 | the reported cardinality is at least the true product size, with equality if and only if every excluded fingerprint is that of a domain point |
| `SeededProposal.CampaignNeverRepeats` | integrations/seeded_random_control/seeded_random_control_adapter.py:65-74 | over any sequence of duplicate-free batches, each fresh of what was proposed before, no point is proposed twice; `RunCampaign` obtains such batches from the proposer |
| `SeededProposal.RunCampaign` | integrations/seeded_random_control/seeded_random_control_adapter.py:65-78 | proposals asked for with their fingerprints fed back: nothing is proposed twice, it stops only when fewer than `count` points remain, and with an injective fingerprint what was proposed and what remains are together what was there |
| `SearchDomain.Validate` | integrations/orfs_agent/orfs_agent_adapter.py:167-218 | the loops accept exactly the accepted domains with accepted observations |
| `SearchDomain.LegalPointsAre` | integrations/orfs_agent/orfs_agent_adapter.py:174-205 | the legal points, parameter by parameter in decimals and by platform |
| `SearchDomain.NormalizeValues` | integrations/orfs_agent/orfs_agent_adapter.py:189-196 | the deduplicated choices are the admitted values, and there are two of them exactly when two listed values differ |
| `SearchDomain.AcceptedDomainsAreLegal` | integrations/orfs_agent/orfs_agent_adapter.py:189-205 | every point of the full product of an accepted domain is in range and has detail padding at most global padding |
| `SearchDomain.AcceptsExactlyLegalProducts` | integrations/orfs_agent/orfs_agent_adapter.py:167-205 | a domain is accepted if and only if it has the right shape and its whole product is legal: no legal product of that shape is refused |
| `SearchDomain.LegalProductRefused` | integrations/orfs_agent/orfs_agent_adapter.py:197-198 | a concrete domain searching both paddings whose whole product is legal and which is refused |
| `SearchDomain.AcceptedObservationsAreLegal` | integrations/orfs_agent/orfs_agent_adapter.py:206-218 | an accepted observation is a point of the product, hence legal |
| `SearchDomain.FilterSuggestions` | integrations/orfs_agent/orfs_agent_native_adapter.py:70-79 | projects all suggestions in order, and refuses the whole answer exactly when one of them leaves the domain |
| `SearchDomain.ProjectionIs` | integrations/orfs_agent/orfs_agent_native_adapter.py:22-24 | each platform parameter takes the value of its upstream column, spelled out |
| `SearchDomain.FilteredSuggestionsAreLegal` | integrations/orfs_agent/orfs_agent_native_adapter.py:70-79 | every candidate let through over an accepted domain is a legal point of its product |
| `SearchDomain.ProposedPointsAreLegal` | integrations/seeded_random_control/seeded_random_control_adapter.py:67-91 | every point the seeded proposer may answer with over an accepted domain is legal |
| `PatchPaths.ReadPaths` | packages/contracts/src/openroad_platform_contracts/teaching_catalog.py:172-186 | returns exactly the paths the header lines name, and fails exactly when there are none or one of them is not an allowed form |
| `PatchPaths.SplitLinesAppend` | packages/contracts/src/openroad_platform_contracts/teaching_catalog.py:174 | lines of a terminated text and of what follows it do not mix, for all of Python's line boundaries |
| `PatchPaths.LinesRejoin` | packages/contracts/src/openroad_platform_contracts/teaching_catalog.py:174 | the lines are the text cut at its boundaries, the ten single characters and the pair of carriage return and newline, and nothing is lost between them |
| `PatchPaths.AcceptedPatchesStayInside` | packages/contracts/src/openroad_platform_contracts/teaching_catalog.py:200-216 | for any structured diff with git-style headers and plain paths, whatever the hunks and free text contain: if the proposal is valid, every touched file is in `allowed_paths` and stays under any root, strictly unless its path consists of dots |
| `PatchPaths.AcceptanceIsExact` | packages/contracts/src/openroad_platform_contracts/teaching_catalog.py:200-216 | when no free text looks like a header, a diff is accepted if and only if it touches a file and all touched files are allowed |
| `PatchPaths.RecordedExactlyWhenPlain` | packages/contracts/src/openroad_platform_contracts/teaching_catalog.py:177-183 | a header's path is recorded as itself if and only if it has no space, tab or line boundary |
| `PatchPaths.SpaceEndsTheName` | packages/contracts/src/openroad_platform_contracts/teaching_catalog.py:177 | the failing family: behind the first space of a header nothing is recorded |
| `PatchPaths.SafePathsStayUnderTheRoot` | packages/contracts/src/openroad_platform_contracts/teaching_catalog.py:163-169 | an allowed path resolves under any root, strictly if and only if some part is not a single dot |
| `PatchPaths.SafePathsAreJoined` | packages/contracts/src/openroad_platform_contracts/teaching_catalog.py:163-169 | a path is allowed if and only if it is a join by single slashes of parts of letters, digits, dots, underscores and hyphens, none of them the double dot |
| `PatchPaths.DotNamesTheRoot` | packages/contracts/src/openroad_platform_contracts/teaching_catalog.py:163-169 | the path `.` is allowed and resolves to the root itself |
| `McpClient.RepliesCarryTheirOwnId` | integrations/openroad-mcp/mcp_client.py:188-212 | under every interleaving of reader and requester with timeouts, a request that returns, returns a message with its own id, and requests end at most once in the order of their ids (section 5 of the JSON-RPC 2.0 specification) |
| `McpClient.LateRepliesAreSetAside` | integrations/openroad-mcp/mcp_client.py:188-212 | once a request has timed out its reply is never delivered to anyone; a usable late reply ends up set aside or stays queued |
| `McpClient.ConservationIsExact` | integrations/openroad-mcp/mcp_client.py:156-170 | over every interleaving each decoded message is exactly once in returned, set aside or queued, if and only if the server never sends a message with an id that carries a true `__eof__` member or is no object |
| `McpClient.MessagesKeepTheirOrder` | integrations/openroad-mcp/mcp_client.py:156-170 | messages with an id are read in the order of arrival, and those without one are set aside in the order of arrival |
| `McpClient.QueuedRepliesAreDelivered` | integrations/openroad-mcp/mcp_client.py:188-212 | a waiting request whose reply is queued returns it after reading up to it, having set aside exactly what was queued before |
| `McpClient.StreamEndEndsTheRequest` | integrations/openroad-mcp/mcp_client.py:156-170 | when the stream ends while a request waits and nothing queued answers it, the request ends with that error after setting aside the queue |
| `McpClient.DecodedIsSaid` | integrations/openroad-mcp/mcp_client.py:156-170 | in every interleaving exactly the messages that arrive before the stream ends or a line holds a bare value are decoded, in order; blank and undecodable lines are skipped |
| `McpClient.RequestsEndExactly` | integrations/openroad-mcp/mcp_client.py:188-212 | the four ways a waiting request ends, and that nothing else ends it |
| `McpClient.MCPStdioClient.ReadStdout` | integrations/openroad-mcp/mcp_client.py:156-170 | the reader's loop changes the object as the reader's events do |
| `McpClient.MCPStdioClient.Request` | integrations/openroad-mcp/mcp_client.py:188-212 | the request loop, with lines arriving between its looks at the queue, does what a sequence of events does, and returns a reply only with its own fresh id |

## Left out

- SHA-256, uuid and the clock: the hash is any function (injective where stated), uuids are fresh, times are parameters.
- Overlapping calls of the M1 service: calls run one at a time; the threads of its server are not interleaved, beyond the one overlap of `M1Edits.InterleavedEditIsLost`.
- The JSON text layer: rows hold the data that `json.dumps` writes and `json.loads` reads back, taken as inverse on serialisable values; a value it refuses raises a type error.
- Python's equality of `1`, `1.0` and `True`, and IEEE floats: record floats are fractions, candidate values exact reals.
- Decoders given members of a wrong type that the code does not check: the model treats them as failures.
- V2Client, authentication and HTTP: the server's request for a run is one operation of `M1Model`; its replies are inputs.
- M1Ownership.OnlyTheOwnerIsLetThrough: for the server's own calls and direct calls that are refused or name a run submitted for the version; `M1Ownership.RecordingsOwnedExactly` shows the condition is exact, `M1Divergence.ForeignRunIsLetThrough` what happens without it.
- M1Gate.NoGdsRunWithoutChecks: for histories without direct `record_verification` and `record_simulation` calls, which set a status without any run.
- M1Verdict.VerdictsAreFinal: for outcomes, in histories without a direct `record_evidence` under the id of a run that has one; `M1Verdict.OneVerdictExactly` shows the condition is exact.
- Task fields that do not depend on the service's state: tool versions, timeouts, resource limits and file names of the built tasks.
- `create_rtl_version_from_v2`, `list_*` and `get_*`: fetches and filters over the same dictionaries.
- Type checks on the adapters' JSON inputs (a list or mapping expected): inputs come in those types.
- SQLite: a table is a map from key to row; transactions and concurrent connections are not modelled.
- Schema keywords other than those named: assertions on the instance alone are one predicate; `patternProperties`, `$ref` and `not` are not part of this model.
- Path sorting is by components, names compared by character; file system races during the walk are not modelled.
- `_candidate` of the A2-ORFO adapter: the same checks as `ValidateCandidate`, driven by a constraints table.
- Header hashes, protocol receipt and timing checks of the domain validator, which precede the modelled partition and value checks.
- Files that a patch changes through extended headers alone (renames, modes, binary content): the reader sees `---` and `+++` lines only.
- Symbolic links below the root a path is resolved at: resolution is lexical.
- Several threads calling `request` at once, and failures of the pipe while a line is read.
- `parameters` and digests inside the sampling trace: only points and cardinalities are modelled; the generator is any function that picks a position at or before the one asked for.
- M2, M3 and M4 services, catalog tables, report builders and language-model providers: short record updates or constants that would only add easy members.
