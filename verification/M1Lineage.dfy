/** What never changes about specifications and versions: over every history of calls, direct recordings included. */
module M1Lineage {
  import opened Wrappers
  import opened Text
  import opened Contracts
  import opened M1Model
  import opened M1Observe

  // ----- one step -----

  /** The fields that make a version the version it is. */
  predicate SameOrigin(v: RTLVersion, w: RTLVersion) {
    && w.versionId == v.versionId && w.specId == v.specId && w.rtlSha256 == v.rtlSha256
    && w.generator == v.generator && w.parentVersionId == v.parentVersionId && w.sourceRef == v.sourceRef
  }

  /** Both checks withdrawn by an edit, with no run to come back from. */
  predicate IsWithdrawn(v: RTLVersion) {
    && v.verificationStatus == Invalidated && v.verificationRunId == None
    && v.simulationStatus == Invalidated && v.simulationRunId == None
  }

  /** How versions may move in one call: origins stay, nothing disappears, and a withdrawn version stays withdrawn
      unless it is the one verified again. */
  predicate VersionsMove(before: map<string, RTLVersion>, after: map<string, RTLVersion>, verified: Option<string>) {
    && Keyed(after) && before.Keys <= after.Keys
    && (forall id | id in before :: SameOrigin(before[id], after[id]))
    && (forall id | id in before && IsWithdrawn(before[id]) && verified != Some(id) :: IsWithdrawn(after[id]))
  }

  function VerifiedBy(op: Op): Option<string> {
    if op.Verify? then Some(op.versionId) else None
  }

  /** Replacing one version by another of the same origin. */
  lemma ReplaceMoves(before: map<string, RTLVersion>, id: string, w: RTLVersion, verified: Option<string>)
    requires Keyed(before) && id in before && SameOrigin(before[id], w)
    requires IsWithdrawn(before[id]) && verified != Some(id) ==> IsWithdrawn(w)
    ensures VersionsMove(before, before[id := w], verified) && before[id := w].Keys == before.Keys
  {
    hide SameOrigin, IsWithdrawn;
    SelfOrigins(before);
    assert w.versionId == id by { OriginId(before[id], w); }
  }

  lemma OriginId(v: RTLVersion, w: RTLVersion)
    requires SameOrigin(v, w)
    ensures w.versionId == v.versionId
  {
  }

  lemma SelfOrigins(versions: map<string, RTLVersion>)
    ensures forall id | id in versions :: SameOrigin(versions[id], versions[id])
  {
  }

  lemma ObservedOrigin(v: RTLVersion, runId: string, status: string)
    ensures SameOrigin(v, v)
    ensures SameOrigin(v, Observed(v, runId, status)) && SameOrigin(v, WithVerification(v, runId, status))
    ensures IsWithdrawn(v) ==>
              IsWithdrawn(Observed(v, runId, status)) && IsWithdrawn(WithVerification(v, runId, status))
    ensures Observed(v, runId, status).versionId == v.versionId == WithVerification(v, runId, status).versionId
  {
    hide Result;
  }

  lemma ObserveMoves(s: State, runId: string, status: string, order: seq<string>)
    requires Keyed(s.versions) && Enumerates(order, s.versions)
    ensures var t := ObserveRun(s, runId, status, order).0;
            && VersionsMove(s.versions, t.versions, None) && t.versions.Keys == s.versions.Keys
            && t.sessions == s.sessions && t.packages == s.packages
            && t.evidence == s.evidence && t.outcomes == s.outcomes
            && (t.history == s.history || t.history == s.history + [Observation(runId, status)])
  {
    if status in TERMINAL {
      ObserveRunIsPointwise(s, runId, status, order);
      var t := ObserveRun(s, runId, status, order).0;
      hide ObserveRun, Observed, WithVerification, SameOrigin, IsWithdrawn, Blocks;
      forall id | id in s.versions
        ensures SameOrigin(s.versions[id], t.versions[id]) && t.versions[id].versionId == id
        ensures IsWithdrawn(s.versions[id]) ==> IsWithdrawn(t.versions[id])
      {
        ObservedOrigin(s.versions[id], runId, status);
      }
    } else {
      SelfMoves(s.versions);
    }
  }

  lemma AddMoves(before: map<string, RTLVersion>, v: RTLVersion)
    requires Keyed(before) && v.versionId !in before
    ensures VersionsMove(before, before[v.versionId := v], None)
  {
    SelfOrigins(before);
    hide SameOrigin, IsWithdrawn;
  }

  lemma MovesCompose(a: map<string, RTLVersion>, b: map<string, RTLVersion>, c: map<string, RTLVersion>)
    requires VersionsMove(a, b, None) && VersionsMove(b, c, None)
    ensures VersionsMove(a, c, None)
  {
    forall id | id in a ensures SameOrigin(a[id], c[id]) {
      assert SameOrigin(a[id], b[id]) && SameOrigin(b[id], c[id]);
    }
    hide SameOrigin, IsWithdrawn;
  }

  lemma WithdrawMoves(versions: map<string, RTLVersion>, id: string)
    requires Keyed(versions) && id in versions
    ensures VersionsMove(versions, versions[id := Withdrawn(versions[id])], None)
    ensures IsWithdrawn(Withdrawn(versions[id])) && Withdrawn(versions[id]).versionId == id
  {
    hide VersionsMove;
    ReplaceMoves(versions, id, Withdrawn(versions[id]), None);
  }

  /** The version dictionary after a creation. */
  lemma CreateVersions(env: Env, s: State, uuid: string, specId: string, source: string, generator: string,
                       parent: Option<string>, sourceRef: Option<string>)
    requires Keyed(s.versions)
    ensures var t := CreateVersion(env, s, uuid, specId, source, generator, parent, sourceRef).0;
            var v := NewVersion(env, uuid, specId, source, generator, parent, sourceRef);
            || t.versions == s.versions || t.versions == s.versions[v.versionId := v]
            || (parent.Some? && parent.value in s.versions
                && var w := s.versions[parent.value := Withdrawn(s.versions[parent.value])];
                   t.versions == w || t.versions == w[v.versionId := v])
  {
    hide RTLVersion.Valid, NonBlank, EncodeVersion, NewVersion;
  }

  lemma CreateMoves(env: Env, s: State, uuid: string, specId: string, source: string, generator: string,
                    parent: Option<string>, sourceRef: Option<string>)
    requires Keyed(s.versions) && "rtl-" + uuid !in s.versions
    ensures var t := CreateVersion(env, s, uuid, specId, source, generator, parent, sourceRef).0;
            VersionsMove(s.versions, t.versions, None)
  {
    CreateVersions(env, s, uuid, specId, source, generator, parent, sourceRef);
    var v := NewVersion(env, uuid, specId, source, generator, parent, sourceRef);
    assert v.versionId == "rtl-" + uuid;
    hide VersionsMove, CreateVersion, NewVersion;
    SelfMoves(s.versions);
    AddMoves(s.versions, v);
    if parent.Some? && parent.value in s.versions {
      var w := s.versions[parent.value := Withdrawn(s.versions[parent.value])];
      WithdrawMoves(s.versions, parent.value);
      assert Keyed(w) by { MoveKeeps(s.versions, w, None); }
      AddMoves(w, v);
      MovesCompose(s.versions, w, w[v.versionId := v]);
    }
  }

  lemma MoveKeeps(before: map<string, RTLVersion>, after: map<string, RTLVersion>, verified: Option<string>)
    requires VersionsMove(before, after, verified)
    ensures Keyed(after)
  {
  }

  lemma VerifyMoves(s: State, id: string, admitted: bool, v2: V2Reply)
    requires Keyed(s.versions)
    ensures VersionsMove(s.versions, SubmitVerification(s, id, admitted, v2).0.versions, Some(id))
    ensures SubmitVerification(s, id, admitted, v2).0.versions.Keys == s.versions.Keys
  {
    hide RTLVersion.Valid, EncodeVersion, VersionsMove;
    SelfMoves(s.versions);
    if id in s.versions && v2.Accepted? {
      ReplaceMoves(s.versions, id,
                   s.versions[id].(verificationStatus := Running, verificationRunId := Some(v2.runId)), Some(id));
    }
  }

  lemma SimulateMoves(s: State, id: string, admitted: bool, v2: V2Reply)
    requires Keyed(s.versions)
    ensures VersionsMove(s.versions, SubmitSimulation(s, id, admitted, v2).0.versions, None)
    ensures SubmitSimulation(s, id, admitted, v2).0.versions.Keys == s.versions.Keys
  {
    hide RTLVersion.Valid, EncodeVersion, OracleOf, VersionsMove;
    SelfMoves(s.versions);
    if id in s.versions && v2.Accepted? && s.versions[id].verificationStatus == Passed {
      ReplaceMoves(s.versions, id, s.versions[id].(simulationStatus := Running, simulationRunId := Some(v2.runId)),
                   None);
    }
  }

  lemma SetMoves(s: State, id: string, status: CheckStatus, runId: string)
    requires Keyed(s.versions)
    ensures VersionsMove(s.versions, RecordVerification(s, id, status, runId).0.versions, None)
    ensures VersionsMove(s.versions, RecordSimulation(s, id, status, runId).0.versions, None)
    ensures RecordVerification(s, id, status, runId).0.versions.Keys == s.versions.Keys
    ensures RecordSimulation(s, id, status, runId).0.versions.Keys == s.versions.Keys
  {
    hide RTLVersion.Valid, EncodeVersion, VersionsMove;
    SelfMoves(s.versions);
    if id in s.versions && s.versions[id].verificationStatus != Invalidated {
      ReplaceMoves(s.versions, id, s.versions[id].(verificationStatus := status, verificationRunId := Some(runId)),
                   None);
      ReplaceMoves(s.versions, id, s.versions[id].(simulationStatus := status, simulationRunId := Some(runId)), None);
    }
  }

  lemma EvidenceFrames(env: Env, s: State, e: EvidenceRef, id: string, runId: string, artifacts: seq<Artifact>,
                       pdk: string, metrics: seq<bool>, now: string)
    ensures var t := RecordEvidence(env, s, e).0;
            t == s.(evidence := t.evidence, rows := t.rows)
    ensures var t := RecordGdsEvidence(env, s, id, runId, artifacts, pdk, metrics, now).0;
            t == s.(evidence := t.evidence, outcomes := t.outcomes, rows := t.rows)
  {
    hide M1RunOutcome.Valid, Missing, GdsOutcome, GdsEvidence, EncodeOutcome, EvidenceRef.Valid, EncodeEvidence;
    hide IsGdsSuccess, HasGdsArtifact;
  }

  lemma RequestMoves(env: Env, s: State, op: Op)
    requires Keyed(s.versions) && op.Request? && Possible(s, op)
    ensures var t := Step(env, s, op).0;
            && VersionsMove(s.versions, t.versions, None) && t.versions.Keys == s.versions.Keys
            && t.sessions == s.sessions && t.packages == s.packages
            && (t.history == s.history || t.history == s.history + [Observation(op.runId, op.run.status)])
  {
    hide ObserveRun, RecordGdsEvidence, AssertRunOwner, TaskVersion, TaskPdk;
    ObserveMoves(s, op.runId, op.run.status, op.order);
    var t := ObserveRun(s, op.runId, op.run.status, op.order).0;
    EvidenceFrames(env, t, EvidenceRef("", "", "", "", "", [], "", "", "", "", "", "", "", 0),
                   TaskVersion(op.run.taskId), op.runId, op.run.artifacts, TaskPdk(op.run.taskId), op.run.metrics,
                   op.now);
    SelfMoves(s.versions);
  }

  lemma SelfMoves(versions: map<string, RTLVersion>)
    requires Keyed(versions)
    ensures forall verified :: VersionsMove(versions, versions, verified)
  {
    SelfOrigins(versions);
    hide SameOrigin, IsWithdrawn;
  }

  /** Calls that touch no version at all. */
  lemma OthersKeepVersions(env: Env, s: State, op: Op)
    requires Possible(s, op)
    requires op.Assess? || op.Freeze? || op.Register? || op.Gds? || op.Judge? || op.AddEvidence?
    ensures Step(env, s, op).0.versions == s.versions
  {
    if op.Assess? || op.Freeze? || op.Register? {
      SpecificationsFrame(env, s, op);
      hide Step;
    } else if op.Gds? {
      GdsKeepsVersions(env, s, op.versionId, op.pdk, op.admitted, op.v2);
      hide SubmitGds;
    } else if op.Judge? {
      EvidenceFrames(env, s, EvidenceRef("", "", "", "", "", [], "", "", "", "", "", "", "", 0), op.versionId, op.runId,
                     op.artifacts, op.pdk, op.metrics, op.now);
      hide RecordGdsEvidence;
    } else {
      EvidenceFrames(env, s, op.evidence, "", "", [], "", [], "");
      hide RecordEvidence;
    }
  }

  lemma GdsKeepsVersions(env: Env, s: State, id: string, pdk: string, admitted: bool, v2: V2Reply)
    ensures SubmitGds(env, s, id, pdk, admitted, v2).0.versions == s.versions
  {
    hide BuildGds;
  }

  lemma StepMoves(env: Env, s: State, op: Op)
    requires Keyed(s.versions) && Possible(s, op)
    ensures VersionsMove(s.versions, Step(env, s, op).0.versions, VerifiedBy(op))
  {
    if op.Assess? || op.Freeze? || op.Register? || op.Gds? || op.Judge? || op.AddEvidence? {
      OthersKeepVersions(env, s, op);
      SelfMoves(s.versions);
      hide Step, VersionsMove;
    } else if op.Request? {
      RequestMoves(env, s, op);
      hide Step;
    } else {
      hide VersionsMove, CreateVersion, SubmitVerification, SubmitSimulation, ObserveRun, RecordVerification;
      hide RecordSimulation;
      match op {
        case Create(uuid, specId, source, generator, parent, sourceRef) =>
          CreateMoves(env, s, uuid, specId, source, generator, parent, sourceRef);
        case Verify(id, admitted, v2) => VerifyMoves(s, id, admitted, v2);
        case Simulate(id, admitted, v2) => SimulateMoves(s, id, admitted, v2);
        case Observe(runId, status, order) => ObserveMoves(s, runId, status, order);
        case SetVerification(id, result, runId) => SetMoves(s, id, result, runId);
        case SetSimulation(id, result, runId) => SetMoves(s, id, result, runId);
      }
    }
  }

  /** Main result: along any history a version keeps its spec, its RTL digest, its source reference, its generator and
      its parent. */
  lemma {:induction false} OriginsNeverChange(env: Env, s: State, ops: seq<Op>, id: string)
    requires Keyed(s.versions) && PossibleRun(env, s, ops) && id in s.versions
    ensures Keyed(Run(env, s, ops).versions)
    ensures id in Run(env, s, ops).versions && SameOrigin(s.versions[id], Run(env, s, ops).versions[id])
    decreases |ops|
  {
    hide Step, Possible;
    if ops != [] {
      StepMoves(env, s, ops[0]);
      OriginsNeverChange(env, Step(env, s, ops[0]).0, ops[1..], id);
    }
  }

  // ----- freezing -----

  /** A session that is ready to freeze, or frozen: it has a spec, and a clocked spec has a positive period. */
  predicate SpecReady(x: M1Session) {
    (x.state == Specified || x.state == Frozen) ==>
      x.spec.Some? && (x.spec.value.clock.Some? ==> HasPeriod(x.spec.value))
  }

  predicate SessionOk(env: Env, x: M1Session) {
    && SpecReady(x)
    && (x.state == Frozen ==> x.frozenFingerprint == Some(Fingerprint(env, x.spec.value)))
  }

  predicate SessionsOk(env: Env, s: State) {
    forall k | k in s.sessions :: s.sessions[k].specId == k && SessionOk(env, s.sessions[k])
  }

  /** No session disappears, and a frozen one is exactly as it was. */
  predicate SessionsMove(s: State, t: State) {
    && s.sessions.Keys <= t.sessions.Keys
    && forall k | k in s.sessions && s.sessions[k].state == Frozen :: t.sessions[k] == s.sessions[k]
  }

  lemma AssessMoves(env: Env, s: State, op: Op)
    requires SessionsOk(env, s) && op.Assess? && Possible(s, op)
    ensures var t := AssessSpec(s, op.uuid, op.owner, op.spec, op.questions, op.reason).0;
            SessionsOk(env, t) && SessionsMove(s, t)
  {
    hide AssessSpec, SessionsOk, SessionsMove;
    AssessKeepsOk(env, s, op);
    AssessKeepsFrozen(s, op);
  }

  lemma AssessKeepsOk(env: Env, s: State, op: Op)
    requires SessionsOk(env, s) && op.Assess?
    ensures SessionsOk(env, AssessSpec(s, op.uuid, op.owner, op.spec, op.questions, op.reason).0)
  {
    hide M1Session.Valid, SpecIR.Valid, Fingerprint, HasPeriod, EncodeSession, IsWritable;
  }

  lemma AssessKeepsFrozen(s: State, op: Op)
    requires op.Assess? && Possible(s, op)
    ensures SessionsMove(s, AssessSpec(s, op.uuid, op.owner, op.spec, op.questions, op.reason).0)
  {
    hide M1Session.Valid, SpecIR.Valid, ClarificationQuestions, EncodeSession, IsWritable;
  }

  lemma FreezeMoves(env: Env, s: State, specId: string)
    requires SessionsOk(env, s)
    ensures var t := FreezeSpec(env, s, specId).0; SessionsOk(env, t) && SessionsMove(s, t)
  {
    hide M1Session.Valid, SpecIR.Valid, Fingerprint, HasPeriod, EncodeSession, IsWritable;
  }

  /** Only versions, rows and the history can differ. */
  predicate OnlyVersionsAndHistoryDiffer(s: State, t: State) {
    t == s.(versions := t.versions, rows := t.rows, history := t.history)
  }

  lemma VerifyFrame(s: State, id: string, admitted: bool, v2: V2Reply)
    ensures OnlyVersionsAndHistoryDiffer(s, SubmitVerification(s, id, admitted, v2).0)
  {
    hide RTLVersion.Valid, BuildVerification, EncodeVersion;
  }

  lemma SimulateFrame(s: State, id: string, admitted: bool, v2: V2Reply)
    ensures OnlyVersionsAndHistoryDiffer(s, SubmitSimulation(s, id, admitted, v2).0)
  {
    hide RTLVersion.Valid, BuildSimulation, EncodeVersion;
  }

  lemma GdsFrame(env: Env, s: State, id: string, pdk: string, admitted: bool, v2: V2Reply)
    ensures OnlyVersionsAndHistoryDiffer(s, SubmitGds(env, s, id, pdk, admitted, v2).0)
  {
    hide Fingerprint;
  }

  lemma RecordingFrames(s: State, id: string, status: CheckStatus, runId: string)
    ensures OnlyVersionsAndHistoryDiffer(s, RecordVerification(s, id, status, runId).0)
    ensures OnlyVersionsAndHistoryDiffer(s, RecordSimulation(s, id, status, runId).0)
  {
    hide RTLVersion.Valid, EncodeVersion;
  }

  lemma CreateFrame(env: Env, s: State, uuid: string, specId: string, source: string, generator: string,
                    parent: Option<string>, sourceRef: Option<string>)
    ensures OnlyVersionsAndHistoryDiffer(s, CreateVersion(env, s, uuid, specId, source, generator, parent, sourceRef).0)
  {
    hide RTLVersion.Valid, NonBlank, EncodeVersion, Withdrawn, NewVersion;
  }

  predicate AboutVersions(op: Op) {
    op.Create? || op.Verify? || op.Simulate? || op.Gds? || op.SetVerification? || op.SetSimulation?
  }

  lemma VersionCallsFrame(env: Env, s: State, op: Op)
    requires Possible(s, op) && AboutVersions(op)
    ensures OnlyVersionsAndHistoryDiffer(s, Step(env, s, op).0)
  {
    hide OnlyVersionsAndHistoryDiffer, CreateVersion, SubmitVerification, SubmitSimulation, SubmitGds;
    hide RecordVerification, RecordSimulation;
    match op {
      case Create(uuid, specId, source, generator, parent, sourceRef) =>
        CreateFrame(env, s, uuid, specId, source, generator, parent, sourceRef);
      case Verify(id, admitted, v2) => VerifyFrame(s, id, admitted, v2);
      case Simulate(id, admitted, v2) => SimulateFrame(s, id, admitted, v2);
      case Gds(id, pdk, admitted, v2) => GdsFrame(env, s, id, pdk, admitted, v2);
      case SetVerification(id, result, runId) => RecordingFrames(s, id, result, runId);
      case SetSimulation(id, result, runId) => RecordingFrames(s, id, result, runId);
    }
  }

  lemma StepSessions(env: Env, s: State, op: Op)
    requires SessionsOk(env, s) && Keyed(s.versions) && Possible(s, op)
    ensures SessionsOk(env, Step(env, s, op).0) && SessionsMove(s, Step(env, s, op).0)
  {
    if op.Assess? {
      AssessMoves(env, s, op);
    } else if op.Freeze? {
      FreezeMoves(env, s, op.specId);
    } else {
      OtherCallsKeepSessions(env, s, op);
      hide Step, SessionOk;
    }
  }

  lemma OtherCallsKeepSessions(env: Env, s: State, op: Op)
    requires Keyed(s.versions) && Possible(s, op) && !op.Assess? && !op.Freeze?
    ensures Step(env, s, op).0.sessions == s.sessions
  {
    if AboutVersions(op) {
      VersionCallsFrame(env, s, op);
      hide Step;
    } else if op.Request? {
      RequestMoves(env, s, op);
      hide Step;
    } else {
      hide RecordGdsEvidence, RecordEvidence, ObserveRun, VerificationPackage.Valid;
      match op {
        case Observe(runId, status, order) => ObserveMoves(s, runId, status, order);
        case Judge(id, runId, artifacts, pdk, metrics, now) =>
          EvidenceFrames(env, s, EvidenceRef("", "", "", "", "", [], "", "", "", "", "", "", "", 0), id, runId,
                         artifacts, pdk, metrics, now);
        case AddEvidence(e) => EvidenceFrames(env, s, e, "", "", [], "", [], "");
        case Register(_, _) =>
      }
    }
  }

  /** Main result: a frozen session never changes again. */
  lemma {:induction false} FrozenIsForever(env: Env, s: State, ops: seq<Op>, specId: string)
    requires SessionsOk(env, s) && Keyed(s.versions) && PossibleRun(env, s, ops)
    requires specId in s.sessions && s.sessions[specId].state == Frozen
    ensures var t := Run(env, s, ops);
            SessionsOk(env, t) && specId in t.sessions && t.sessions[specId] == s.sessions[specId]
    decreases |ops|
  {
    hide Step, Possible, SessionsOk;
    if ops != [] {
      StepSessions(env, s, ops[0]);
      StepMoves(env, s, ops[0]);
      FrozenIsForever(env, Step(env, s, ops[0]).0, ops[1..], specId);
    }
  }

  // ----- lineage -----

  predicate CreatedAt(h: seq<Event>, n: nat, id: string) {
    n < |h| && h[n] == Created(id)
  }

  /** A version's spec is frozen, its creation is in the history once, and its parent is an older version of the
      same spec. */
  ghost predicate VersionPlaced(s: State, id: string)
    requires id in s.versions
  {
    var v := s.versions[id];
    && v.specId in s.sessions && s.sessions[v.specId].state == Frozen
    && (exists n: nat :: CreatedAt(s.history, n, id))
    && (v.parentVersionId.Some? ==>
          var p := v.parentVersionId.value;
          && p in s.versions && s.versions[p].specId == v.specId
          && forall m: nat, n: nat :: CreatedAt(s.history, m, p) && CreatedAt(s.history, n, id) ==> m < n)
  }

  /** A GDS task carries what was frozen and created: fingerprint, RTL digest, staged input, clock period. */
  predicate TaskFaithful(s: State, task: Task) {
    task.GdsTask? ==>
      && task.versionId in s.versions && s.versions[task.versionId].specId in s.sessions
      && var v := s.versions[task.versionId]; var session := s.sessions[v.specId];
      && session.state == Frozen && session.frozenFingerprint == Some(task.fingerprint)
      && session.spec.Some? && task.top == session.spec.value.top && task.design == session.spec.value.designId
      && task.clock == session.spec.value.clock
      && task.rtlSha256 == v.rtlSha256
      && v.sourceRef.Some? && task.inputId == RemovePrefix(v.sourceRef.value, "input:")
      && (task.clock.Some? ==> PositiveNumber(task.clockPeriod))
  }

  ghost predicate Placed(env: Env, s: State) {
    && SessionsOk(env, s) && Keyed(s.versions)
    && (forall n: nat, id :: CreatedAt(s.history, n, id) ==> id in s.versions)
    && (forall id | id in s.versions :: VersionPlaced(s, id))
    && (forall n | 0 <= n < |s.history| && s.history[n].Submission? :: TaskFaithful(s, s.history[n].task))
  }

  predicate Quiet(e: Event) {
    !e.Created? && (e.Submission? ==> !e.task.GdsTask?)
  }

  lemma OldCreation(h: seq<Event>, g: seq<Event>, n: nat, id: string)
    requires h <= g && CreatedAt(g, n, id) && forall k | |h| <= k < |g| :: g[k] != Created(id)
    ensures CreatedAt(h, n, id)
  {
  }

  lemma TaskStaysFaithful(s: State, t: State, task: Task, verified: Option<string>)
    requires VersionsMove(s.versions, t.versions, verified) && SessionsMove(s, t) && TaskFaithful(s, task)
    ensures TaskFaithful(t, task)
  {
    if task.GdsTask? {
      assert SameOrigin(s.versions[task.versionId], t.versions[task.versionId]);
    }
  }

  lemma VersionStaysPlaced(s: State, t: State, id: string, verified: Option<string>)
    requires VersionsMove(s.versions, t.versions, verified) && SessionsMove(s, t) && s.history <= t.history
    requires id in s.versions && VersionPlaced(s, id)
    requires forall n: nat, x | x in s.versions && CreatedAt(t.history, n, x) :: CreatedAt(s.history, n, x)
    ensures VersionPlaced(t, id)
  {
    assert SameOrigin(s.versions[id], t.versions[id]);
    var n: nat :| CreatedAt(s.history, n, id);
    assert CreatedAt(t.history, n, id);
    var p := s.versions[id].parentVersionId;
    if p.Some? { assert SameOrigin(s.versions[p.value], t.versions[p.value]); }
  }

  /** Calls that create nothing and submit no GDS task keep everything in its place. */
  lemma QuietStepPlaced(env: Env, s: State, t: State, verified: Option<string>)
    requires Placed(env, s) && SessionsOk(env, t) && SessionsMove(s, t)
    requires VersionsMove(s.versions, t.versions, verified) && t.versions.Keys == s.versions.Keys
    requires s.history <= t.history
    requires forall n | |s.history| <= n < |t.history| :: Quiet(t.history[n])
    ensures Placed(env, t)
  {
    hide SessionsOk, VersionsMove, SessionsMove, TaskFaithful, VersionPlaced;
    assert Keyed(t.versions) by { MoveKeeps(s.versions, t.versions, verified); }
    forall n: nat, id | CreatedAt(t.history, n, id) ensures CreatedAt(s.history, n, id) {
      assert forall k | |s.history| <= k < |t.history| :: Quiet(t.history[k]);
      OldCreation(s.history, t.history, n, id);
    }
    forall id | id in t.versions ensures VersionPlaced(t, id) {
      VersionStaysPlaced(s, t, id, verified);
    }
    forall n | 0 <= n < |t.history| && t.history[n].Submission? ensures TaskFaithful(t, t.history[n].task) {
      if n < |s.history| {
        TaskStaysFaithful(s, t, s.history[n].task, verified);
      } else {
        assert Quiet(t.history[n]);
        NonGdsFaithful(t, t.history[n].task);
      }
    }
  }

  lemma NonGdsFaithful(t: State, task: Task)
    requires !task.GdsTask?
    ensures TaskFaithful(t, task)
  {
  }

  lemma GdsPlaced(env: Env, s: State, id: string, pdk: string, admitted: bool, v2: V2Reply)
    requires Placed(env, s)
    ensures Placed(env, SubmitGds(env, s, id, pdk, admitted, v2).0)
  {
    hide BuildGds, SubmitGds, Placed, TaskFaithful;
    var built := BuildGds(env, s, id, pdk, admitted);
    if built.Return? && RunOf(v2).Some? {
      SubmitGdsFrame(env, s, id, pdk, admitted, v2);
      BuiltTaskIsFaithful(env, s, id, pdk, admitted);
      SubmissionPlaced(env, s, SubmitGds(env, s, id, pdk, admitted, v2).0, built.value, v2.runId);
    } else {
      RefusedGds(env, s, id, pdk, admitted, v2);
    }
  }

  lemma RefusedGds(env: Env, s: State, id: string, pdk: string, admitted: bool, v2: V2Reply)
    requires BuildGds(env, s, id, pdk, admitted).Raise? || RunOf(v2).None?
    ensures SubmitGds(env, s, id, pdk, admitted, v2).0 == s
  {
    hide BuildGds;
  }

  lemma SubmissionPlaced(env: Env, s: State, t: State, task: Task, runId: string)
    requires Placed(env, s) && TaskFaithful(s, task)
    requires t.history == s.history + [Submission(task, runId)] && t.versions == s.versions && t.sessions == s.sessions
    ensures Placed(env, t)
  {
    hide SessionsOk, VersionPlaced, TaskFaithful, VersionsMove;
    SelfMoves(s.versions);
    assert SessionsMove(s, t) && SessionsOk(env, t) by { SameSessions(env, s, t); }
    forall n: nat, x | CreatedAt(t.history, n, x) ensures CreatedAt(s.history, n, x) {
      OldCreation(s.history, t.history, n, x);
    }
    forall x | x in t.versions ensures VersionPlaced(t, x) { VersionStaysPlaced(s, t, x, None); }
    forall n | 0 <= n < |t.history| && t.history[n].Submission? ensures TaskFaithful(t, t.history[n].task) {
      TaskStaysFaithful(s, t, t.history[n].task, None);
    }
  }

  lemma BuiltTaskIsFaithful(env: Env, s: State, id: string, pdk: string, admitted: bool)
    requires Placed(env, s) && BuildGds(env, s, id, pdk, admitted).Return?
    ensures TaskFaithful(s, BuildGds(env, s, id, pdk, admitted).value)
  {
    assert s.versions[id].versionId == id && SessionOk(env, s.sessions[s.versions[id].specId]);
    hide Placed, Fingerprint, PositiveNumber;
  }

  lemma SubmitGdsFrame(env: Env, s: State, id: string, pdk: string, admitted: bool, v2: V2Reply)
    requires BuildGds(env, s, id, pdk, admitted).Return? && RunOf(v2).Some?
    ensures var t := SubmitGds(env, s, id, pdk, admitted, v2).0;
            && t.history == s.history + [Submission(BuildGds(env, s, id, pdk, admitted).value, v2.runId)]
            && t.versions == s.versions && t.sessions == s.sessions
  {
  }

  lemma SameSessions(env: Env, s: State, t: State)
    requires t.sessions == s.sessions
    ensures SessionsMove(s, t) && (SessionsOk(env, s) <==> SessionsOk(env, t))
  {
  }

  /** A new version is placed after everything before it. */
  lemma AddPlaced(env: Env, s: State, v: RTLVersion)
    requires Placed(env, s) && v.versionId !in s.versions
    requires v.specId in s.sessions && s.sessions[v.specId].state == Frozen
    requires v.parentVersionId.Some? ==>
               v.parentVersionId.value in s.versions && s.versions[v.parentVersionId.value].specId == v.specId
    ensures Placed(env, AddVersion(s, v).0)
  {
    var t := AddVersion(s, v).0;
    if v.Valid() {
      assert t.history == s.history + [Created(v.versionId)] && t.versions == s.versions[v.versionId := v]
             && t.sessions == s.sessions by { hide RTLVersion.Valid, EncodeVersion; }
      hide AddVersion, RTLVersion.Valid, Placed;
      NewlyPlaced(env, s, t, v);
    }
  }

  lemma NewlyPlaced(env: Env, s: State, t: State, v: RTLVersion)
    requires Placed(env, s) && v.versionId !in s.versions
    requires v.specId in s.sessions && s.sessions[v.specId].state == Frozen
    requires v.parentVersionId.Some? ==>
               v.parentVersionId.value in s.versions && s.versions[v.parentVersionId.value].specId == v.specId
    requires t.history == s.history + [Created(v.versionId)] && t.versions == s.versions[v.versionId := v]
    requires t.sessions == s.sessions
    ensures Placed(env, t)
  {
    hide SessionsOk, VersionsMove, TaskFaithful, VersionPlaced, SessionsMove;
    AddMoves(s.versions, v);
    SameSessions(env, s, t);
    NewVersionPlaced(env, s, t, v);
    forall n: nat, x | CreatedAt(t.history, n, x) && x != v.versionId ensures CreatedAt(s.history, n, x) {
      OldCreation(s.history, t.history, n, x);
    }
    forall x | x in t.versions ensures VersionPlaced(t, x) {
      if x != v.versionId { VersionStaysPlaced(s, t, x, None); }
    }
    forall n | 0 <= n < |t.history| && t.history[n].Submission? ensures TaskFaithful(t, t.history[n].task) {
      TaskStaysFaithful(s, t, s.history[n].task, None);
    }
    MoveKeeps(s.versions, t.versions, None);
  }

  lemma NewVersionPlaced(env: Env, s: State, t: State, v: RTLVersion)
    requires Placed(env, s) && v.versionId !in s.versions
    requires v.specId in s.sessions && s.sessions[v.specId].state == Frozen
    requires v.parentVersionId.Some? ==>
               v.parentVersionId.value in s.versions && s.versions[v.parentVersionId.value].specId == v.specId
    requires t.history == s.history + [Created(v.versionId)] && t.versions == s.versions[v.versionId := v]
    requires t.sessions == s.sessions
    ensures VersionPlaced(t, v.versionId)
  {
    assert CreatedAt(t.history, |s.history|, v.versionId);
    hide SessionsOk, TaskFaithful, VersionPlaced, Keyed;
    forall m: nat | CreatedAt(t.history, m, v.versionId) ensures m == |s.history| {
      OnlyTheLast(s.history, Created(v.versionId), m, v.versionId);
    }
    if v.parentVersionId.Some? {
      forall m: nat | CreatedAt(t.history, m, v.parentVersionId.value) ensures m < |s.history| {}
    }
    PlacedAtTheEnd(s, t, v);
  }

  lemma OnlyTheLast(h: seq<Event>, e: Event, m: nat, id: string)
    requires CreatedAt(h + [e], m, id) && !CreatedAt(h, m, id)
    ensures m == |h|
  {
  }

  lemma PlacedAtTheEnd(s: State, t: State, v: RTLVersion)
    requires v.specId in s.sessions && s.sessions[v.specId].state == Frozen && v.versionId !in s.versions
    requires t.versions == s.versions[v.versionId := v] && t.sessions == s.sessions
    requires CreatedAt(t.history, |s.history|, v.versionId)
    requires forall m: nat | CreatedAt(t.history, m, v.versionId) :: m == |s.history|
    requires v.parentVersionId.Some? ==>
               && v.parentVersionId.value in s.versions && s.versions[v.parentVersionId.value].specId == v.specId
               && forall m: nat | CreatedAt(t.history, m, v.parentVersionId.value) :: m < |s.history|
    ensures VersionPlaced(t, v.versionId)
  {
    hide CreatedAt;
  }

  lemma PlacedParts(env: Env, s: State)
    requires Placed(env, s)
    ensures Keyed(s.versions) && SessionsOk(env, s)
  {
  }

  lemma WithdrawPlaced(env: Env, s: State, t: State, id: string)
    requires Placed(env, s) && id in s.versions
    requires t.versions == s.versions[id := Withdrawn(s.versions[id])] && t.history == s.history + [Edited(id)]
    requires t.sessions == s.sessions
    ensures Placed(env, t)
  {
    hide SessionsOk, SessionsMove, VersionsMove, Placed, Withdrawn;
    PlacedParts(env, s);
    SameSessions(env, s, t);
    WithdrawMoves(s.versions, id);
    QuietStepPlaced(env, s, t, None);
  }

  lemma CreatePlaced(env: Env, s: State, uuid: string, specId: string, source: string, generator: string,
                     parent: Option<string>, sourceRef: Option<string>)
    requires Placed(env, s) && "rtl-" + uuid !in s.versions
    ensures Placed(env, CreateVersion(env, s, uuid, specId, source, generator, parent, sourceRef).0)
  {
    hide Placed, AddVersion, RTLVersion.Valid, NonBlank, PutVersion, KeepVersion, Log, Withdrawn;
    PlacedParts(env, s);
    var v := NewVersion(env, uuid, specId, source, generator, parent, sourceRef);
    if specId in s.sessions && s.sessions[specId].state == Frozen {
      if parent.None? {
        AddPlaced(env, s, v);
      } else if parent.value in s.versions && s.versions[parent.value].specId == specId {
        EditPlaced(env, s, parent.value, v);
      }
    }
  }

  lemma EditPlaced(env: Env, s: State, id: string, v: RTLVersion)
    requires Placed(env, s) && Keyed(s.versions) && id in s.versions && v.versionId !in s.versions
    requires v.specId in s.sessions && s.sessions[v.specId].state == Frozen
    requires v.parentVersionId == Some(id) && s.versions[id].specId == v.specId
    ensures var w := Withdrawn(s.versions[id]);
            && Placed(env, Log(KeepVersion(s, w), Edited(w.versionId)))
            && Placed(env, AddVersion(Log(PutVersion(s, w), Edited(w.versionId)), v).0)
  {
    hide Placed, AddVersion, EncodeVersion;
    var w := Withdrawn(s.versions[id]);
    WithdrawPlaced(env, s, Log(KeepVersion(s, w), Edited(id)), id);
    WithdrawPlaced(env, s, Log(PutVersion(s, w), Edited(id)), id);
    AddPlaced(env, Log(PutVersion(s, w), Edited(id)), v);
  }

  predicate QuietlyExtends(s: State, t: State) {
    && t.versions.Keys == s.versions.Keys && s.history <= t.history
    && forall n | |s.history| <= n < |t.history| :: Quiet(t.history[n])
  }

  lemma SubmissionsAreQuiet(s: State, id: string, admitted: bool, v2: V2Reply)
    requires Keyed(s.versions)
    ensures QuietlyExtends(s, SubmitVerification(s, id, admitted, v2).0)
    ensures QuietlyExtends(s, SubmitSimulation(s, id, admitted, v2).0)
  {
    hide QuietlyExtends, SubmitVerification, SubmitSimulation;
    VerifyIsQuiet(s, id, admitted, v2);
    SimulateIsQuiet(s, id, admitted, v2);
  }

  lemma VerifyIsQuiet(s: State, id: string, admitted: bool, v2: V2Reply)
    requires Keyed(s.versions)
    ensures QuietlyExtends(s, SubmitVerification(s, id, admitted, v2).0)
  {
    BuiltForTheVersion(s, id, admitted);
    hide RTLVersion.Valid, EncodeVersion, BuildVerification;
  }

  lemma SimulateIsQuiet(s: State, id: string, admitted: bool, v2: V2Reply)
    requires Keyed(s.versions)
    ensures QuietlyExtends(s, SubmitSimulation(s, id, admitted, v2).0)
  {
    BuiltForTheVersion(s, id, admitted);
    hide RTLVersion.Valid, EncodeVersion, BuildSimulation;
  }

  lemma BuiltForTheVersion(s: State, id: string, admitted: bool)
    ensures var r := BuildVerification(s, id, admitted);
            r.Return? ==> id in s.versions && !r.value.GdsTask? && r.value.versionId == s.versions[id].versionId
    ensures var r := BuildSimulation(s, id, admitted);
            r.Return? ==> id in s.versions && !r.value.GdsTask? && r.value.versionId == s.versions[id].versionId
  {
    hide OracleOf;
  }

  lemma RecordingsAreQuiet(s: State, id: string, status: CheckStatus, runId: string)
    requires Keyed(s.versions)
    ensures QuietlyExtends(s, RecordVerification(s, id, status, runId).0)
    ensures QuietlyExtends(s, RecordSimulation(s, id, status, runId).0)
  {
    hide RTLVersion.Valid, EncodeVersion;
  }

  /** Every other call is quiet. */
  lemma QuietCalls(env: Env, s: State, op: Op)
    requires Keyed(s.versions) && Possible(s, op) && !op.Create? && !op.Gds?
    ensures QuietlyExtends(s, Step(env, s, op).0)
  {
    if op.Assess? || op.Freeze? || op.Register? {
      SpecificationsFrame(env, s, op);
    } else if op.Request? {
      RequestMoves(env, s, op);
    } else {
      hide ObserveRun, RecordGdsEvidence, RecordEvidence, SubmitVerification, SubmitSimulation, RecordVerification;
      hide RecordSimulation;
      match op {
        case Verify(id, admitted, v2) => SubmissionsAreQuiet(s, id, admitted, v2);
        case Simulate(id, admitted, v2) => SubmissionsAreQuiet(s, id, admitted, v2);
        case Observe(runId, status, order) => ObserveMoves(s, runId, status, order);
        case Judge(id, runId, artifacts, pdk, metrics, now) =>
          EvidenceFrames(env, s, EvidenceRef("", "", "", "", "", [], "", "", "", "", "", "", "", 0), id, runId,
                         artifacts, pdk, metrics, now);
        case AddEvidence(e) => EvidenceFrames(env, s, e, "", "", [], "", [], "");
        case SetVerification(id, result, runId) => RecordingsAreQuiet(s, id, result, runId);
        case SetSimulation(id, result, runId) => RecordingsAreQuiet(s, id, result, runId);
      }
    }
  }

  lemma StepPlaced(env: Env, s: State, op: Op)
    requires Placed(env, s) && Possible(s, op)
    ensures Placed(env, Step(env, s, op).0)
  {
    if op.Create? {
      CreatePlaced(env, s, op.uuid, op.specId, op.source, op.generator, op.parent, op.sourceRef);
    } else if op.Gds? {
      GdsPlaced(env, s, op.versionId, op.pdk, op.admitted, op.v2);
    } else {
      StepMoves(env, s, op);
      StepSessions(env, s, op);
      QuietCalls(env, s, op);
      hide Step, Placed;
      QuietStepPlaced(env, s, Step(env, s, op).0, VerifiedBy(op));
    }
  }

  lemma {:induction false} RunPlaced(env: Env, s: State, ops: seq<Op>)
    requires Placed(env, s) && PossibleRun(env, s, ops)
    ensures Placed(env, Run(env, s, ops))
    decreases |ops|
  {
    hide Placed, Step, Possible;
    if ops != [] {
      StepPlaced(env, s, ops[0]);
      RunPlaced(env, Step(env, s, ops[0]).0, ops[1..]);
    }
  }

  lemma EmptyIsPlaced(env: Env)
    ensures Placed(env, EMPTY)
  {
  }

  /** Each version on the path is the parent of the one before it. */
  predicate IsAncestry(versions: map<string, RTLVersion>, path: seq<string>) {
    && path != [] && (forall i | 0 <= i < |path| :: path[i] in versions)
    && forall i | 0 <= i < |path| - 1 :: versions[path[i]].parentVersionId == Some(path[i + 1])
  }

  lemma {:induction false} AncestorsAreOlder(env: Env, s: State, path: seq<string>, m: nat, n: nat)
    requires Placed(env, s) && IsAncestry(s.versions, path) && |path| > 1
    requires CreatedAt(s.history, m, path[|path| - 1]) && CreatedAt(s.history, n, path[0])
    ensures m < n && s.versions[path[|path| - 1]].specId == s.versions[path[0]].specId
    decreases |path|
  {
    hide Placed, VersionPlaced;
    if |path| > 2 {
      EachIsPlaced(env, s, path[1]);
      var k: nat :| CreatedAt(s.history, k, path[1]);
      ParentsAreOlder(env, s, path[0], path[1], k, n);
      AncestorsAreOlder(env, s, path[1..], m, k);
    } else {
      ParentsAreOlder(env, s, path[0], path[1], m, n);
    }
  }

  lemma EachIsPlaced(env: Env, s: State, id: string)
    requires Placed(env, s) && id in s.versions
    ensures exists n: nat :: CreatedAt(s.history, n, id)
  {
    hide SessionsOk, TaskFaithful;
    assert VersionPlaced(s, id);
  }

  lemma ParentsAreOlder(env: Env, s: State, child: string, parent: string, m: nat, n: nat)
    requires Placed(env, s) && child in s.versions && s.versions[child].parentVersionId == Some(parent)
    requires CreatedAt(s.history, m, parent) && CreatedAt(s.history, n, child)
    ensures m < n && parent in s.versions && s.versions[parent].specId == s.versions[child].specId
  {
    hide SessionsOk, TaskFaithful;
    assert VersionPlaced(s, child);
  }

  /** Main result: in every reachable state the spec of every version is frozen, and every chain of parents stays
      within one spec, runs through stored versions and never returns to where it started. */
  lemma LineageIsAForest(env: Env, ops: seq<Op>, path: seq<string>)
    requires PossibleRun(env, EMPTY, ops) && IsAncestry(Run(env, EMPTY, ops).versions, path)
    ensures var s := Run(env, EMPTY, ops); var first, last := path[0], path[|path| - 1];
            && s.versions[first].specId in s.sessions && s.sessions[s.versions[first].specId].state == Frozen
            && s.versions[last].specId == s.versions[first].specId
            && (|path| > 1 ==> last != first)
            && (s.versions[last].parentVersionId.Some? ==> s.versions[last].parentVersionId.value in s.versions)
  {
    hide Step, Possible, Run, PossibleRun;
    EmptyIsPlaced(env);
    RunPlaced(env, EMPTY, ops);
    var s := Run(env, EMPTY, ops);
    assert VersionPlaced(s, path[0]) && VersionPlaced(s, path[|path| - 1]);
    if |path| > 1 {
      var m: nat :| CreatedAt(s.history, m, path[|path| - 1]);
      var n: nat :| CreatedAt(s.history, n, path[0]);
      AncestorsAreOlder(env, s, path, m, n);
      if path[|path| - 1] == path[0] { AncestorsAreOlder(env, s, path, n, n); }
    }
  }

  /** Main result: every GDS task in the history names the fingerprint its session was frozen with, the digest and
      the input its version was created with, and a positive period when the spec is clocked. */
  lemma GdsTasksAreFaithful(env: Env, ops: seq<Op>, n: nat)
    requires PossibleRun(env, EMPTY, ops)
    requires var h := Run(env, EMPTY, ops).history; n < |h| && h[n].Submission?
    ensures TaskFaithful(Run(env, EMPTY, ops), Run(env, EMPTY, ops).history[n].task)
  {
    hide Step, Possible, Run, PossibleRun, TaskFaithful;
    EmptyIsPlaced(env);
    RunPlaced(env, EMPTY, ops);
  }
}
