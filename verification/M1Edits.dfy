/** What an edit takes away: until its parent is submitted for verification again, no history of calls brings back a
    result, a submission or successful evidence. */
module M1Edits {
  import opened Wrappers
  import opened Text
  import opened Contracts
  import opened M1Model
  import opened M1Observe
  import opened M1Lineage
  import opened M1Verdict

  predicate AsksToVerify(op: Op, id: string) {
    op.Verify? && op.versionId == id
  }

  /** A verification call for the version that returns. */
  predicate Reverifies(s: State, op: Op, id: string) {
    AsksToVerify(op, id) && SubmitVerification(s, id, op.admitted, op.v2).1.Return?
  }

  predicate NeverReverified(env: Env, s: State, ops: seq<Op>, id: string)
    requires PossibleRun(env, s, ops)
    decreases |ops|
  {
    ops == [] || (!Reverifies(s, ops[0], id) && NeverReverified(env, Step(env, s, ops[0]).0, ops[1..], id))
  }

  /** An edit that is let through withdraws its parent, whether or not the new version is then accepted. */
  lemma EditWithdrawsTheParent(env: Env, s: State, op: Op)
    requires Keyed(s.versions) && Possible(s, op) && op.Create? && op.parent.Some?
    requires op.specId in s.sessions && s.sessions[op.specId].state == Frozen && NonBlank(op.source)
    requires op.parent.value in s.versions && s.versions[op.parent.value].specId == op.specId
    ensures var t := Step(env, s, op).0; op.parent.value in t.versions && IsWithdrawn(t.versions[op.parent.value])
  {
    hide RTLVersion.Valid, NonBlank, EncodeVersion;
  }

  // ----- no submission -----

  /** The history has grown, by no submission for the version. */
  predicate NothingSubmitted(h: seq<Event>, g: seq<Event>, id: string) {
    h <= g && forall n | |h| <= n < |g| :: !(g[n].Submission? && g[n].task.versionId == id)
  }

  /** The history has grown, and nothing but verifications was submitted for the version. */
  predicate NothingPastVerification(h: seq<Event>, g: seq<Event>, id: string) {
    h <= g && forall n | |h| <= n < |g| && g[n].Submission? && g[n].task.versionId == id :: g[n].task.VerifyTask?
  }

  lemma Verifying(s: State, versionId: string, admitted: bool, v2: V2Reply, id: string)
    requires Keyed(s.versions)
    ensures var h := SubmitVerification(s, versionId, admitted, v2).0.history;
            NothingPastVerification(s.history, h, id) && (versionId != id ==> NothingSubmitted(s.history, h, id))
  {
    BuiltForTheVersion(s, versionId, admitted);
    assert BuildVerification(s, versionId, admitted).Return? ==>
      BuildVerification(s, versionId, admitted).value.VerifyTask?;
    hide RTLVersion.Valid, EncodeVersion, BuildVerification;
  }

  lemma SimulatingOthers(s: State, versionId: string, admitted: bool, v2: V2Reply, id: string)
    requires Keyed(s.versions) && id in s.versions && IsWithdrawn(s.versions[id])
    ensures NothingSubmitted(s.history, SubmitSimulation(s, versionId, admitted, v2).0.history, id)
  {
    BuiltForTheVersion(s, versionId, admitted);
    assert versionId == id ==> BuildSimulation(s, versionId, admitted).Raise?;
    hide RTLVersion.Valid, EncodeVersion, BuildSimulation, IsWithdrawn;
  }

  lemma GdsForOthers(env: Env, s: State, versionId: string, pdk: string, admitted: bool, v2: V2Reply, id: string)
    requires Keyed(s.versions) && id in s.versions && IsWithdrawn(s.versions[id])
    ensures NothingSubmitted(s.history, SubmitGds(env, s, versionId, pdk, admitted, v2).0.history, id)
  {
    hide Fingerprint;
    var built := BuildGds(env, s, versionId, pdk, admitted);
    assert built.Return? ==> built.value.versionId == versionId != id;
  }

  lemma CreationSubmitsNothing(env: Env, s: State, uuid: string, specId: string, source: string, generator: string,
                               parent: Option<string>, sourceRef: Option<string>, id: string)
    ensures var h := CreateVersion(env, s, uuid, specId, source, generator, parent, sourceRef).0.history;
            NothingSubmitted(s.history, h, id)
  {
    hide RTLVersion.Valid, NonBlank, EncodeVersion, Withdrawn, NewVersion;
  }

  lemma RecordingSubmitsNothing(s: State, id: string, status: CheckStatus, runId: string)
    ensures RecordVerification(s, id, status, runId).0.history == s.history
    ensures RecordSimulation(s, id, status, runId).0.history == s.history
  {
    hide RTLVersion.Valid, EncodeVersion;
  }

  lemma StepSubmits(env: Env, s: State, op: Op, id: string)
    requires Keyed(s.versions) && Possible(s, op) && id in s.versions && IsWithdrawn(s.versions[id])
    ensures NothingPastVerification(s.history, Step(env, s, op).0.history, id)
    ensures !AsksToVerify(op, id) ==> NothingSubmitted(s.history, Step(env, s, op).0.history, id)
  {
    if op.Assess? || op.Freeze? || op.Register? {
      SpecificationsFrame(env, s, op);
      hide Step;
    } else if op.Request? {
      RequestMoves(env, s, op);
      hide Step;
    } else if op.Judge? || op.AddEvidence? || op.Observe? {
      RecordsSubmitNothing(env, s, op);
      hide Step;
    } else {
      hide CreateVersion, SubmitVerification, SubmitSimulation, SubmitGds, RecordVerification, RecordSimulation;
      hide IsWithdrawn;
      match op {
        case Create(uuid, specId, source, generator, parent, sourceRef) =>
          CreationSubmitsNothing(env, s, uuid, specId, source, generator, parent, sourceRef, id);
        case Verify(versionId, admitted, v2) => Verifying(s, versionId, admitted, v2, id);
        case Simulate(versionId, admitted, v2) => SimulatingOthers(s, versionId, admitted, v2, id);
        case Gds(versionId, pdk, admitted, v2) => GdsForOthers(env, s, versionId, pdk, admitted, v2, id);
        case SetVerification(versionId, result, runId) => RecordingSubmitsNothing(s, versionId, result, runId);
        case SetSimulation(versionId, result, runId) => RecordingSubmitsNothing(s, versionId, result, runId);
      }
    }
  }

  lemma RecordsSubmitNothing(env: Env, s: State, op: Op)
    requires Keyed(s.versions) && Possible(s, op) && (op.Judge? || op.AddEvidence? || op.Observe?)
    ensures var h := Step(env, s, op).0.history;
            h == s.history || (op.Observe? && h == s.history + [Observation(op.runId, op.status)])
  {
    hide ObserveRun, RecordEvidence, RecordGdsEvidence;
    if op.Observe? {
      ObserveMoves(s, op.runId, op.status, op.order);
    } else if op.Judge? {
      EvidenceFrames(env, s, EvidenceRef("", "", "", "", "", [], "", "", "", "", "", "", "", 0), op.versionId, op.runId,
                     op.artifacts, op.pdk, op.metrics, op.now);
    } else {
      EvidenceFrames(env, s, op.evidence, "", "", [], "", [], "");
    }
  }

  // ----- no evidence -----

  /** Every successful evidence about the version was there before. */
  predicate NoNewSuccess(s: State, t: State, id: string) {
    forall k | k in t.evidence && IsGdsSuccess(t.evidence[k]) && t.evidence[k].candidateId == id ::
      k in s.evidence && s.evidence[k] == t.evidence[k]
  }

  lemma SameEvidence(s: State, t: State, id: string)
    requires t.evidence == s.evidence
    ensures NoNewSuccess(s, t, id)
  {
  }

  lemma RecordingEvidenceAddsNone(env: Env, s: State, e: EvidenceRef, id: string)
    requires id in s.versions && IsWithdrawn(s.versions[id])
    ensures NoNewSuccess(s, RecordEvidence(env, s, e).0, id)
    ensures IsGdsSuccess(e) && e.candidateId == id ==> RecordEvidence(env, s, e).1.Raise?
  {
    RecordedOrRefused(env, s, e);
    RecordedForPassed(env, s, e);
    hide RecordEvidence, IsGdsSuccess, EncodeEvidence;
  }

  /** Incomplete outcomes add no evidence, and complete runs go through the recording of evidence. */
  lemma JudgingAddsNone(env: Env, s: State, versionId: string, runId: string, artifacts: seq<Artifact>, pdk: string,
                        metrics: seq<bool>, now: string, id: string)
    requires id in s.versions && IsWithdrawn(s.versions[id])
    ensures NoNewSuccess(s, RecordGdsEvidence(env, s, versionId, runId, artifacts, pdk, metrics, now).0, id)
  {
    hide NoNewSuccess, RecordEvidence, Missing, GdsOutcome, GdsEvidence, M1RunOutcome.Valid, IsWithdrawn;
    var t := RecordGdsEvidence(env, s, versionId, runId, artifacts, pdk, metrics, now).0;
    var e := GdsEvidence(env, s, versionId, runId, artifacts, pdk, now);
    if e.Some? { RecordingEvidenceAddsNone(env, s, e.value, id); }
    if t.evidence == s.evidence { SameEvidence(s, t, id); }
  }

  lemma RequestAddsNone(env: Env, s: State, op: Op, id: string)
    requires Keyed(s.versions) && op.Request? && Possible(s, op) && id in s.versions && IsWithdrawn(s.versions[id])
    ensures NoNewSuccess(s, Step(env, s, op).0, id)
  {
    hide NoNewSuccess, ObserveRun, RecordGdsEvidence, AssertRunOwner, TaskVersion, TaskPdk, IsWithdrawn;
    ObserveMoves(s, op.runId, op.run.status, op.order);
    var t := ObserveRun(s, op.runId, op.run.status, op.order).0;
    SameEvidence(s, s, id);
    SameEvidence(s, t, id);
    JudgingAddsNone(env, t, TaskVersion(op.run.taskId), op.runId, op.run.artifacts, TaskPdk(op.run.taskId),
                    op.run.metrics, op.now, id);
    SuccessThrough(s, t, RecordGdsEvidence(env, t, TaskVersion(op.run.taskId), op.runId, op.run.artifacts,
                                           TaskPdk(op.run.taskId), op.run.metrics, op.now).0, id);
  }

  lemma SuccessThrough(s: State, t: State, u: State, id: string)
    requires NoNewSuccess(s, t, id) && NoNewSuccess(t, u, id)
    ensures NoNewSuccess(s, u, id)
  {
    hide IsGdsSuccess;
  }

  lemma StepAddsNone(env: Env, s: State, op: Op, id: string)
    requires Keyed(s.versions) && Possible(s, op) && id in s.versions && IsWithdrawn(s.versions[id])
    ensures NoNewSuccess(s, Step(env, s, op).0, id)
  {
    hide NoNewSuccess, RecordEvidence, RecordGdsEvidence, IsWithdrawn;
    if op.Request? {
      RequestAddsNone(env, s, op, id);
    } else if op.Judge? {
      JudgingAddsNone(env, s, op.versionId, op.runId, op.artifacts, op.pdk, op.metrics, op.now, id);
    } else if op.AddEvidence? {
      RecordingEvidenceAddsNone(env, s, op.evidence, id);
    } else {
      OtherCallsKeepVerdicts(env, s, op);
      SameEvidence(s, Step(env, s, op).0, id);
    }
  }

  // ----- whole histories -----

  lemma SubmittedThrough(h: seq<Event>, g: seq<Event>, f: seq<Event>, id: string)
    requires h <= g <= f
    ensures NothingSubmitted(h, g, id) && NothingSubmitted(g, f, id) ==> NothingSubmitted(h, f, id)
    ensures NothingPastVerification(h, g, id) && NothingPastVerification(g, f, id) ==> NothingPastVerification(h, f, id)
  {
  }

  lemma RefusedVerification(s: State, id: string, admitted: bool, v2: V2Reply)
    ensures var (t, r) := SubmitVerification(s, id, admitted, v2); r.Raise? ==> t.versions == s.versions
  {
    hide RTLVersion.Valid, EncodeVersion, BuildVerification;
  }

  lemma StillWithdrawn(env: Env, s: State, op: Op, id: string)
    requires Keyed(s.versions) && Possible(s, op) && id in s.versions && IsWithdrawn(s.versions[id])
    requires !Reverifies(s, op, id)
    ensures var t := Step(env, s, op).0; Keyed(t.versions) && id in t.versions && IsWithdrawn(t.versions[id])
  {
    hide IsWithdrawn, SameOrigin, SubmitVerification;
    StepMoves(env, s, op);
    if op.Verify? { RefusedVerification(s, op.versionId, op.admitted, op.v2); }
  }

  lemma GrownBy(h: seq<Event>, g: seq<Event>, id: string)
    requires NothingPastVerification(h, g, id)
    ensures h <= g
  {
  }

  lemma SameHistorySubmitsNothing(h: seq<Event>, id: string)
    ensures NothingSubmitted(h, h, id) && NothingPastVerification(h, h, id)
  {
  }

  /** Main result: from the edit until a verification call for the version returns, no history of calls, with late
      observations, direct recordings and refused calls, brings back a result, submits a simulation or GDS for the
      version, or adds successful GDS evidence about it; without verification calls nothing at all is submitted. */
  lemma {:induction false} EditedVersionsDoNotPass(env: Env, s: State, ops: seq<Op>, id: string)
    requires Keyed(s.versions) && PossibleRun(env, s, ops) && id in s.versions && IsWithdrawn(s.versions[id])
    requires NeverReverified(env, s, ops, id)
    ensures var t := Run(env, s, ops);
            && Keyed(t.versions) && id in t.versions && IsWithdrawn(t.versions[id])
            && NothingPastVerification(s.history, t.history, id)
            && ((forall i | 0 <= i < |ops| :: !AsksToVerify(ops[i], id)) ==> NothingSubmitted(s.history, t.history, id))
            && NoNewSuccess(s, t, id)
    decreases |ops|
  {
    hide Step, Possible, IsWithdrawn, NothingSubmitted, NothingPastVerification, NoNewSuccess, Reverifies, AsksToVerify;
    if ops == [] {
      SameEvidence(s, s, id);
      SameHistorySubmitsNothing(s.history, id);
    } else {
      var t := Step(env, s, ops[0]).0;
      StillWithdrawn(env, s, ops[0], id);
      StepSubmits(env, s, ops[0], id);
      StepAddsNone(env, s, ops[0], id);
      EditedVersionsDoNotPass(env, t, ops[1..], id);
      GrownBy(s.history, t.history, id);
      GrownBy(t.history, Run(env, s, ops).history, id);
      SubmittedThrough(s.history, t.history, Run(env, s, ops).history, id);
      SuccessThrough(s, t, Run(env, s, ops), id);
    }
  }

  /** After such a history every way on is refused. */
  lemma EditedVersionsAreRefused(env: Env, s: State, ops: seq<Op>, id: string, admitted: bool, pdk: string,
                                 e: EvidenceRef)
    requires Keyed(s.versions) && PossibleRun(env, s, ops) && id in s.versions && IsWithdrawn(s.versions[id])
    requires NeverReverified(env, s, ops, id)
    requires IsGdsSuccess(e) && e.candidateId == id
    ensures var t := Run(env, s, ops);
            && id in t.versions
            && t.versions[id].verificationStatus != Passed && t.versions[id].simulationStatus != Passed
            && BuildSimulation(t, id, admitted).Raise?
            && BuildGds(env, t, id, pdk, admitted).Raise?
            && RecordEvidence(env, t, e).1.Raise? && RecordEvidence(env, t, e).0 == t
  {
    hide Step, Possible, Run, PossibleRun, NothingSubmitted, NothingPastVerification, NoNewSuccess, NeverReverified;
    EditedVersionsDoNotPass(env, s, ops, id);
    hide EvidenceRef.Valid, IsGdsSuccess, HasGdsArtifact, OracleOf, Fingerprint;
  }

  // ----- why calls have to run one at a time -----

  /** The second half of `record_verification`, on the version its first half read. */
  function FinishVerification(s: State, seen: RTLVersion, status: CheckStatus, runId: string)
    : (State, Reply<RTLVersion>)
  {
    var updated := seen.(verificationStatus := status, verificationRunId := Some(runId));
    if seen.verificationStatus == Invalidated || !(status.Passed? || status.Failed?) || !updated.Valid()
    then (s, Raise(ValueError))
    else (PutVersion(s, updated), Return(updated))
  }

  /** What the first half of a recording checks, on the version it read. */
  predicate Recordable(seen: RTLVersion, status: CheckStatus, runId: string) {
    && seen.verificationStatus != Invalidated && (status.Passed? || status.Failed?)
    && seen.(verificationStatus := status, verificationRunId := Some(runId)).Valid()
  }

  /** A recording is its second half on the version as stored, and after an edit it raises. When the edit lands between
      the halves it is lost exactly when the version read before it could be recorded: the version then has the recorded
      status again. */
  lemma InterleavedEditIsLost(env: Env, s: State, op: Op, id: string, status: CheckStatus, runId: string)
    requires Keyed(s.versions) && Possible(s, op) && op.Create? && op.parent == Some(id)
    requires op.specId in s.sessions && s.sessions[op.specId].state == Frozen && NonBlank(op.source)
    requires id in s.versions && s.versions[id].specId == op.specId
    ensures RecordVerification(s, id, status, runId) == FinishVerification(s, s.versions[id], status, runId)
    ensures var edited := Step(env, s, op).0;
            RecordVerification(edited, id, status, runId) == (edited, Raise(ValueError))
    ensures var t := FinishVerification(Step(env, s, op).0, s.versions[id], status, runId).0;
            && id in t.versions
            && (IsWithdrawn(t.versions[id]) <==> !Recordable(s.versions[id], status, runId))
            && (Recordable(s.versions[id], status, runId) ==> t.versions[id].verificationStatus == status)
  {
    EditWithdrawsTheParent(env, s, op);
    hide Step, RTLVersion.Valid, EncodeVersion;
  }
}
