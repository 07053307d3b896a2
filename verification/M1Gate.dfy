/** No GDS run and no GDS evidence without a verification and a simulation of that same RTL: over every history of
    calls in which check results come only from observed runs. */
module M1Gate {
  import opened Wrappers
  import opened Text
  import opened Contracts
  import opened M1Model
  import opened M1Lineage
  import opened M1Observe
  import opened M1Verdict

  /** The input a version stages. */
  function InputOf(v: RTLVersion): string {
    if v.sourceRef.Some? then RemovePrefix(v.sourceRef.value, "input:") else ""
  }

  // ----- reading a history -----

  /** The version is not edited between two points of the history. */
  predicate Unedited(h: seq<Event>, versionId: string, from: nat, to: nat)
    requires to <= |h|
  {
    forall n | from <= n < to :: h[n] != Edited(versionId)
  }

  predicate SubmitsAt(h: seq<Event>, n: nat, versionId: string, input: string) {
    n < |h| && h[n].Submission? && h[n].task.versionId == versionId && h[n].task.inputId == input
  }

  /** A verification of this input of the version, submitted at `i`, with no edit up to `to`. */
  predicate VerifySubmitted(h: seq<Event>, versionId: string, input: string, i: nat, to: nat) {
    i < to <= |h| && SubmitsAt(h, i, versionId, input) && h[i].task.VerifyTask? && Unedited(h, versionId, i, to)
  }

  /** ... whose run was seen to succeed at `j`. */
  predicate VerifiedBy(h: seq<Event>, versionId: string, input: string, i: nat, j: nat, to: nat) {
    && VerifySubmitted(h, versionId, input, i, to)
    && i < j < to && h[j] == Observation(h[i].runId, "succeeded")
  }

  /** After that, at `k`, a simulation of the same input of the version. */
  predicate SimulateSubmitted(h: seq<Event>, versionId: string, input: string, i: nat, j: nat, k: nat, to: nat) {
    && k < to <= |h| && VerifiedBy(h, versionId, input, i, j, k)
    && SubmitsAt(h, k, versionId, input) && h[k].task.SimulateTask? && Unedited(h, versionId, i, to)
  }

  /** ... whose run was seen to succeed at `l`: all four before `to`, in this order, with no edit in between. */
  predicate SimulatedBy(h: seq<Event>, versionId: string, input: string, i: nat, j: nat, k: nat, l: nat, to: nat) {
    && SimulateSubmitted(h, versionId, input, i, j, k, to)
    && k < l < to && h[l] == Observation(h[k].runId, "succeeded")
  }

  /** The history before `to` holds a successful verification and then a successful simulation of the input. */
  ghost predicate Checked(h: seq<Event>, versionId: string, input: string, to: nat) {
    exists i: nat, j: nat, k: nat, l: nat :: SimulatedBy(h, versionId, input, i, j, k, l, to)
  }

  /** ... and the run `runId` is a successful verification of it. */
  ghost predicate VerifiedRun(h: seq<Event>, versionId: string, input: string, runId: Option<string>, to: nat) {
    exists i: nat, j: nat :: VerifiedBy(h, versionId, input, i, j, to) && Some(h[i].runId) == runId
  }

  lemma WitnessesGrow(h: seq<Event>, more: seq<Event>, versionId: string, input: string, runId: Option<string>,
                      to: nat)
    ensures Checked(h, versionId, input, to) ==> Checked(h + more, versionId, input, to)
    ensures VerifiedRun(h, versionId, input, runId, to) ==> VerifiedRun(h + more, versionId, input, runId, to)
  {
    var g := h + more;
    if Checked(h, versionId, input, to) {
      var i: nat, j: nat, k: nat, l: nat :| SimulatedBy(h, versionId, input, i, j, k, l, to);
      assert SimulatedBy(g, versionId, input, i, j, k, l, to);
    }
    if VerifiedRun(h, versionId, input, runId, to) {
      var i: nat, j: nat :| VerifiedBy(h, versionId, input, i, j, to) && Some(h[i].runId) == runId;
      assert VerifiedBy(g, versionId, input, i, j, to) && Some(g[i].runId) == runId;
    }
  }

  // ----- what the status of a version tells about the past -----

  ghost predicate VerificationJustified(h: seq<Event>, v: RTLVersion) {
    match v.verificationStatus
    case Running =>
      exists i: nat :: VerifySubmitted(h, v.versionId, InputOf(v), i, |h|) && Some(h[i].runId) == v.verificationRunId
    case Passed => VerifiedRun(h, v.versionId, InputOf(v), v.verificationRunId, |h|)
    case _ => true
  }

  ghost predicate SimulationJustified(h: seq<Event>, v: RTLVersion) {
    match v.simulationStatus
    case Running =>
      exists i: nat, j: nat, k: nat ::
        SimulateSubmitted(h, v.versionId, InputOf(v), i, j, k, |h|) && Some(h[k].runId) == v.simulationRunId
    case Passed => Checked(h, v.versionId, InputOf(v), |h|)
    case _ => true
  }

  ghost predicate Justified(h: seq<Event>, v: RTLVersion) {
    VerificationJustified(h, v) && SimulationJustified(h, v)
  }

  lemma JustifiedGrows(h: seq<Event>, e: Event, v: RTLVersion)
    requires Justified(h, v) && e != Edited(v.versionId)
    ensures Justified(h + [e], v)
  {
    hide SubmitsAt, InputOf;
    var g, id, input := h + [e], v.versionId, InputOf(v);
    assert forall i: nat :: VerifySubmitted(h, id, input, i, |h|) ==> VerifySubmitted(g, id, input, i, |g|) by {
      SubmitsGrow(h, e, id, input);
    }
    assert forall i: nat, j: nat :: VerifiedBy(h, id, input, i, j, |h|) ==> VerifiedBy(g, id, input, i, j, |g|);
    forall i: nat, j: nat, k: nat | SimulateSubmitted(h, id, input, i, j, k, |h|)
      ensures SimulateSubmitted(g, id, input, i, j, k, |g|) && k < |h| && g[k] == h[k]
    {
      SubmitsGrow(h, e, id, input);
      assert VerifiedBy(g, id, input, i, j, k);
    }
    assert forall i: nat, j: nat, k: nat, l: nat ::
      SimulatedBy(h, id, input, i, j, k, l, |h|) ==> SimulatedBy(g, id, input, i, j, k, l, |g|);
  }

  lemma SubmitsGrow(h: seq<Event>, e: Event, id: string, input: string)
    ensures forall i: nat :: SubmitsAt(h, i, id, input) ==> SubmitsAt(h + [e], i, id, input)
  {
  }

  // ----- the invariant of the service -----

  ghost predicate TasksChecked(h: seq<Event>) {
    forall t: nat | t < |h| && h[t].Submission? && h[t].task.GdsTask? :: TaskChecked(h, t)
  }

  ghost predicate TaskChecked(h: seq<Event>, t: nat)
    requires t < |h| && h[t].Submission? && h[t].task.GdsTask?
  {
    var task := h[t].task;
    && Checked(h, task.versionId, task.inputId, t)
    && VerifiedRun(h, task.versionId, task.inputId, task.verificationRunId, t)
  }

  ghost predicate EvidenceChecked(s: State, e: EvidenceRef) {
    e.candidateId in s.versions
    && exists to: nat :: to <= |s.history| && Checked(s.history, e.candidateId, InputOf(s.versions[e.candidateId]), to)
  }

  ghost predicate Sound(s: State) {
    && Keyed(s.versions)
    && (forall id | id in s.versions :: Justified(s.history, s.versions[id]))
    && TasksChecked(s.history)
    && (forall id | id in s.evidence && IsGdsSuccess(s.evidence[id]) :: EvidenceChecked(s, s.evidence[id]))
  }

  /** What a call may do to a sound state: add one event and move each version to a justified one with the same
      source, keeping the evidence. */
  lemma Advance(s: State, t: State, e: Event)
    requires Sound(s) && t.history == s.history + [e] && t.evidence == s.evidence
    requires Keyed(t.versions) && s.versions.Keys <= t.versions.Keys
    requires forall id | id in t.versions :: Justified(t.history, t.versions[id])
    requires forall id | id in s.versions :: t.versions[id].sourceRef == s.versions[id].sourceRef
    requires e.Submission? && e.task.GdsTask? ==> TaskChecked(t.history, |s.history|)
    ensures Sound(t)
  {
    hide Justified, Checked, VerifiedRun;
    forall n: nat | n < |t.history| && t.history[n].Submission? && t.history[n].task.GdsTask?
      ensures TaskChecked(t.history, n)
    {
      if n < |s.history| {
        var task := s.history[n].task;
        assert TaskChecked(s.history, n);
        WitnessesGrow(s.history, [e], task.versionId, task.inputId, task.verificationRunId, n);
      }
    }
    forall id | id in t.evidence && IsGdsSuccess(t.evidence[id]) ensures EvidenceChecked(t, t.evidence[id]) {
      var x := s.evidence[id];
      assert EvidenceChecked(s, x);
      var input := InputOf(s.versions[x.candidateId]);
      var to: nat :| to <= |s.history| && Checked(s.history, x.candidateId, input, to);
      WitnessesGrow(s.history, [e], x.candidateId, input, None, to);
      assert InputOf(t.versions[x.candidateId]) == input;
      assert Checked(t.history, x.candidateId, input, to);
    }
  }

  lemma VerificationObserved(h: seq<Event>, v: RTLVersion, w: RTLVersion, runId: string, status: string)
    requires VerificationJustified(h, v) && VerificationJustified(h + [Observation(runId, status)], v)
    requires w.versionId == v.versionId && w.sourceRef == v.sourceRef && w.verificationRunId == v.verificationRunId
    requires w.verificationStatus == if AwaitsVerification(v, runId) then Result(status) else v.verificationStatus
    ensures VerificationJustified(h + [Observation(runId, status)], w)
  {
    ResultIsTerminal(status);
    hide InputOf, Result;
    assert InputOf(w) == InputOf(v) by { SameInput(v, w); }
    var g := h + [Observation(runId, status)];
    if AwaitsVerification(v, runId) && status == "succeeded" {
      var i: nat :| VerifySubmitted(h, v.versionId, InputOf(v), i, |h|) && Some(h[i].runId) == v.verificationRunId;
      SubmitsGrow(h, Observation(runId, status), v.versionId, InputOf(v));
      assert VerifySubmitted(g, v.versionId, InputOf(v), i, |g|);
      assert VerifiedBy(g, v.versionId, InputOf(v), i, |h|, |g|) && Some(g[i].runId) == v.verificationRunId;
    }
  }

  lemma SimulationObserved(h: seq<Event>, v: RTLVersion, w: RTLVersion, runId: string, status: string)
    requires SimulationJustified(h, v) && SimulationJustified(h + [Observation(runId, status)], v)
    requires w.versionId == v.versionId && w.sourceRef == v.sourceRef && w.simulationRunId == v.simulationRunId
    requires w.simulationStatus == v.simulationStatus
             || (AwaitsSimulation(v, runId) && w.simulationStatus == Result(status))
    ensures SimulationJustified(h + [Observation(runId, status)], w)
  {
    ResultIsTerminal(status);
    hide InputOf, Result;
    assert InputOf(w) == InputOf(v) by { SameInput(v, w); }
    var g := h + [Observation(runId, status)];
    if w.simulationStatus == v.simulationStatus {
      assert SimulationJustified(g, v);
    } else if status == "succeeded" {
      var i: nat, j: nat, k: nat :|
        SimulateSubmitted(h, v.versionId, InputOf(v), i, j, k, |h|) && Some(h[k].runId) == v.simulationRunId;
      SubmitsGrow(h, Observation(runId, status), v.versionId, InputOf(v));
      assert VerifiedBy(g, v.versionId, InputOf(v), i, j, k);
      assert SimulateSubmitted(g, v.versionId, InputOf(v), i, j, k, |g|);
      assert SimulatedBy(g, v.versionId, InputOf(v), i, j, k, |h|, |g|);
    }
  }

  lemma SameInput(v: RTLVersion, w: RTLVersion)
    requires w.sourceRef == v.sourceRef
    ensures InputOf(w) == InputOf(v)
  {
  }

  /** A running check of the run just seen to succeed becomes a justified passed check. */
  lemma ObservedIsJustified(h: seq<Event>, v: RTLVersion, runId: string, status: string)
    requires Justified(h, v) && Justified(h + [Observation(runId, status)], v)
    ensures Justified(h + [Observation(runId, status)], WithVerification(v, runId, status))
    ensures Justified(h + [Observation(runId, status)], Observed(v, runId, status))
  {
    hide VerificationJustified, SimulationJustified, Result;
    VerificationObserved(h, v, WithVerification(v, runId, status), runId, status);
    VerificationObserved(h, v, Observed(v, runId, status), runId, status);
    SimulationObserved(h, v, WithVerification(v, runId, status), runId, status);
    SimulationObserved(h, v, Observed(v, runId, status), runId, status);
  }

  lemma ObserveSound(s: State, runId: string, status: string, order: seq<string>)
    requires Sound(s) && Enumerates(order, s.versions)
    ensures Sound(ObserveRun(s, runId, status, order).0)
  {
    if status in TERMINAL {
      ObserveRunIsPointwise(s, runId, status, order);
      hide ObserveRun, Justified, Observed, WithVerification;
      var t := ObserveRun(s, runId, status, order).0;
      var e := Observation(runId, status);
      forall id | id in t.versions
        ensures Justified(t.history, t.versions[id]) && t.versions[id].versionId == id
        ensures t.versions[id].sourceRef == s.versions[id].sourceRef
      {
        JustifiedGrows(s.history, e, s.versions[id]);
        ObservedIsJustified(s.history, s.versions[id], runId, status);
        ObservedKeepsIdAndSource(s.versions[id], runId, status);
      }
      Advance(s, t, e);
    }
  }

  lemma ObservedKeepsIdAndSource(v: RTLVersion, runId: string, status: string)
    ensures Observed(v, runId, status).versionId == v.versionId == WithVerification(v, runId, status).versionId
    ensures Observed(v, runId, status).sourceRef == v.sourceRef == WithVerification(v, runId, status).sourceRef
  {
  }

  lemma SubmissionSound(s: State, task: Task, runId: string, v: RTLVersion)
    requires Sound(s) && task.versionId in s.versions && task.inputId == InputOf(s.versions[task.versionId])
    requires v.versionId == task.versionId && v.sourceRef == s.versions[task.versionId].sourceRef
    requires Justified(s.history + [Submission(task, runId)], v)
    requires task.GdsTask? ==> TaskChecked(s.history + [Submission(task, runId)], |s.history|)
    ensures Sound(Log(s, Submission(task, runId)))
    ensures Sound(KeepVersion(Log(s, Submission(task, runId)), v))
    ensures Sound(PutVersion(Log(s, Submission(task, runId)), v))
  {
    hide Justified, TaskChecked;
    var e := Submission(task, runId);
    forall id | id in s.versions ensures Justified(s.history + [e], s.versions[id]) {
      JustifiedGrows(s.history, e, s.versions[id]);
    }
    Advance(s, Log(s, e), e);
    Advance(s, KeepVersion(Log(s, e), v), e);
    Advance(s, PutVersion(Log(s, e), v), e);
  }

  lemma VerifySound(s: State, versionId: string, admitted: bool, v2: V2Reply)
    requires Sound(s)
    ensures Sound(SubmitVerification(s, versionId, admitted, v2).0)
  {
    var built := BuildVerification(s, versionId, admitted);
    if built.Return? && RunOf(v2).Some? {
      hide Sound, RTLVersion.Valid;
      var h, e := s.history, Submission(built.value, v2.runId);
      var v := s.versions[versionId].(verificationStatus := Running, verificationRunId := Some(v2.runId));
      assert Sound(s) && Justified(h, s.versions[versionId]) && s.versions[versionId].versionId == versionId by {
        SoundVersion(s, versionId);
      }
      JustifiedGrows(h, e, s.versions[versionId]);
      assert VerifySubmitted(h + [e], versionId, InputOf(v), |h|, |h| + 1);
      assert Justified(h + [e], v);
      SubmissionSound(s, built.value, v2.runId, v);
    }
  }

  lemma SoundVersion(s: State, versionId: string)
    requires Sound(s) && versionId in s.versions
    ensures Justified(s.history, s.versions[versionId]) && s.versions[versionId].versionId == versionId
  {
  }

  lemma BuiltSimulation(s: State, versionId: string, admitted: bool)
    ensures var r := BuildSimulation(s, versionId, admitted);
            r.Return? ==> && versionId in s.versions && r.value.SimulateTask?
                          && r.value.versionId == s.versions[versionId].versionId
                          && r.value.inputId == InputOf(s.versions[versionId])
                          && s.versions[versionId].verificationStatus == Passed
  {
    hide OracleOf;
  }

  lemma SimulateSound(s: State, versionId: string, admitted: bool, v2: V2Reply)
    requires Sound(s)
    ensures Sound(SubmitSimulation(s, versionId, admitted, v2).0)
  {
    var built := BuildSimulation(s, versionId, admitted);
    BuiltSimulation(s, versionId, admitted);
    hide Sound, RTLVersion.Valid, BuildSimulation, EncodeVersion;
    if built.Return? && RunOf(v2).Some? {
      var h, e := s.history, Submission(built.value, v2.runId);
      var v := s.versions[versionId].(simulationStatus := Running, simulationRunId := Some(v2.runId));
      SoundVersion(s, versionId);
      JustifiedGrows(h, e, s.versions[versionId]);
      var i: nat, j: nat :| VerifiedBy(h, versionId, InputOf(v), i, j, |h|);
      assert VerifiedBy(h + [e], versionId, InputOf(v), i, j, |h|);
      assert SimulateSubmitted(h + [e], versionId, InputOf(v), i, j, |h|, |h| + 1);
      assert Justified(h + [e], v);
      SubmissionSound(s, built.value, v2.runId, v);
    }
  }

  lemma GdsSound(env: Env, s: State, versionId: string, pdk: string, admitted: bool, v2: V2Reply)
    requires Sound(s)
    ensures Sound(SubmitGds(env, s, versionId, pdk, admitted, v2).0)
  {
    var built := BuildGds(env, s, versionId, pdk, admitted);
    if built.Return? && RunOf(v2).Some? {
      hide Sound, Checked, VerifiedRun;
      var h, e, v := s.history, Submission(built.value, v2.runId), s.versions[versionId];
      SoundVersion(s, versionId);
      JustifiedGrows(h, e, v);
      WitnessesGrow(h, [e], versionId, InputOf(v), v.verificationRunId, |h|);
      assert TaskChecked(h + [e], |h|);
      SubmissionSound(s, built.value, v2.runId, v);
      var owner := s.sessions[s.versions[versionId].specId].ownerId;
      OwnersDoNotMatter(Log(s, e), v2.runId, owner);
    }
  }

  lemma OwnersDoNotMatter(s: State, runId: string, owner: string)
    ensures Sound(PutOwner(s, runId, owner)) <==> Sound(s)
  {
    hide Justified, TasksChecked, EvidenceChecked;
    var t := PutOwner(s, runId, owner);
    assert forall e :: EvidenceChecked(t, e) <==> EvidenceChecked(s, e) by { EvidenceReadsVersions(s, t); }
  }

  lemma EvidenceReadsVersions(s: State, t: State)
    requires t.versions == s.versions && t.history == s.history
    ensures forall e :: EvidenceChecked(t, e) <==> EvidenceChecked(s, e)
  {
    hide Checked, InputOf;
  }

  lemma AddSound(s: State, v: RTLVersion)
    requires Sound(s) && v.versionId !in s.versions && v.verificationStatus == NotRun && v.simulationStatus == NotRun
    ensures Sound(AddVersion(s, v).0)
  {
    if v.Valid() {
      var e := Created(v.versionId);
      var t := Log(PutVersion(s, v), e);
      hide Justified, RTLVersion.Valid;
      forall id | id in t.versions ensures Justified(t.history, t.versions[id]) {
        if id == v.versionId {
          UncheckedIsJustified(t.history, v);
        } else {
          JustifiedGrows(s.history, e, s.versions[id]);
        }
      }
      Advance(s, t, e);
    }
  }

  lemma UncheckedIsJustified(h: seq<Event>, v: RTLVersion)
    requires v.verificationStatus == NotRun || v.verificationStatus == Invalidated
    requires v.simulationStatus == NotRun || v.simulationStatus == Invalidated
    ensures Justified(h, v)
  {
  }

  lemma WithdrawSound(s: State, versionId: string)
    requires Sound(s) && versionId in s.versions
    ensures Sound(Log(KeepVersion(s, Withdrawn(s.versions[versionId])), Edited(versionId)))
    ensures Sound(Log(PutVersion(s, Withdrawn(s.versions[versionId])), Edited(versionId)))
  {
    var v, e := Withdrawn(s.versions[versionId]), Edited(versionId);
    assert v.versionId == versionId;
    hide Justified, Withdrawn;
    var t, u := Log(KeepVersion(s, v), e), Log(PutVersion(s, v), e);
    forall id | id in t.versions ensures Justified(t.history, t.versions[id]) {
      if id == versionId { UncheckedIsJustified(t.history, v); } else { JustifiedGrows(s.history, e, s.versions[id]); }
    }
    assert v.sourceRef == s.versions[versionId].sourceRef by { WithdrawnKeepsSource(s.versions[versionId]); }
    Advance(s, t, e);
    Advance(s, u, e);
  }

  lemma WithdrawnKeepsSource(v: RTLVersion)
    ensures Withdrawn(v).sourceRef == v.sourceRef
  {
  }

  lemma CreateSound(env: Env, s: State, uuid: string, specId: string, source: string, generator: string,
                    parent: Option<string>, sourceRef: Option<string>)
    requires Sound(s) && "rtl-" + uuid !in s.versions
    ensures Sound(CreateVersion(env, s, uuid, specId, source, generator, parent, sourceRef).0)
  {
    hide Sound, AddVersion, RTLVersion.Valid, NonBlank;
    var v := NewVersion(env, uuid, specId, source, generator, parent, sourceRef);
    AddSound(s, v);
    if parent.Some? && parent.value in s.versions {
      SoundVersion(s, parent.value);
      WithdrawSound(s, parent.value);
      AddSound(Log(PutVersion(s, Withdrawn(s.versions[parent.value])), Edited(parent.value)), v);
    }
  }

  lemma RecordEvidenceSound(env: Env, s: State, e: EvidenceRef)
    requires Sound(s)
    ensures Sound(RecordEvidence(env, s, e).0)
  {
    hide EvidenceRef.Valid, Checked, TasksChecked, HasGdsArtifact, IsGdsSuccess;
    var (t, r) := RecordEvidence(env, s, e);
    if r.Return? {
      assert Justified(s.history, s.versions[e.candidateId]);
      if IsGdsSuccess(e) {
        assert Checked(s.history, e.candidateId, InputOf(s.versions[e.candidateId]), |s.history|);
      }
      EvidenceReadsVersions(s, t);
    }
  }

  lemma RecordGdsEvidenceSound(env: Env, s: State, versionId: string, runId: string, artifacts: seq<Artifact>,
                               pdk: string, metrics: seq<bool>, now: string)
    requires Sound(s)
    ensures Sound(RecordGdsEvidence(env, s, versionId, runId, artifacts, pdk, metrics, now).0)
  {
    hide Sound, RecordEvidence, GdsOutcome, GdsEvidence, M1RunOutcome.Valid, Missing;
    var outcome := GdsOutcome(versionId, runId, artifacts, pdk, metrics);
    OutcomesDoNotMatter(s, outcome);
    var evidence := GdsEvidence(env, s, versionId, runId, artifacts, pdk, now);
    if evidence.Some? { RecordEvidenceSound(env, s, evidence.value); }
  }

  lemma OutcomesDoNotMatter(s: State, outcome: M1RunOutcome)
    ensures Sound(PutOutcome(s, outcome)) <==> Sound(s)
  {
    hide Justified, TasksChecked, EvidenceChecked;
    EvidenceReadsVersions(s, PutOutcome(s, outcome));
  }

  lemma RequestSound(env: Env, s: State, op: Op)
    requires Sound(s) && op.Request? && Possible(s, op)
    ensures Sound(Step(env, s, op).0)
  {
    hide Sound, ObserveRun, RecordGdsEvidence, AssertRunOwner, TaskVersion, TaskPdk;
    var run := op.run;
    ObserveSound(s, op.runId, run.status, op.order);
    RecordGdsEvidenceSound(env, ObserveRun(s, op.runId, run.status, op.order).0, TaskVersion(run.taskId), op.runId,
                           run.artifacts, TaskPdk(run.taskId), run.metrics, op.now);
  }

  lemma SpecificationsSound(s: State, t: State)
    requires Sound(s) && OnlySpecificationsDiffer(s, t)
    ensures Sound(t)
  {
    hide Justified, TasksChecked, EvidenceChecked;
    EvidenceReadsVersions(s, t);
  }

  /** The result of a check comes from an observed run, not from a direct call. */
  predicate FromRuns(op: Op) {
    !op.SetVerification? && !op.SetSimulation?
  }

  lemma StepSound(env: Env, s: State, op: Op)
    requires Sound(s) && Possible(s, op) && FromRuns(op)
    ensures Sound(Step(env, s, op).0)
  {
    if op.Assess? || op.Freeze? || op.Register? {
      SpecificationsFrame(env, s, op);
      SpecificationsSound(s, Step(env, s, op).0);
    } else if op.Request? {
      RequestSound(env, s, op);
    } else {
      hide Sound, CreateVersion, SubmitVerification, SubmitSimulation, SubmitGds, ObserveRun, RecordGdsEvidence;
      hide RecordEvidence;
      match op {
        case Create(uuid, specId, source, generator, parent, sourceRef) =>
          CreateSound(env, s, uuid, specId, source, generator, parent, sourceRef);
        case Verify(id, admitted, v2) => VerifySound(s, id, admitted, v2);
        case Simulate(id, admitted, v2) => SimulateSound(s, id, admitted, v2);
        case Gds(id, pdk, admitted, v2) => GdsSound(env, s, id, pdk, admitted, v2);
        case Observe(runId, status, order) => ObserveSound(s, runId, status, order);
        case Judge(id, runId, artifacts, pdk, metrics, now) =>
          RecordGdsEvidenceSound(env, s, id, runId, artifacts, pdk, metrics, now);
        case AddEvidence(e) => RecordEvidenceSound(env, s, e);
      }
    }
  }

  lemma {:induction false} RunSound(env: Env, s: State, ops: seq<Op>)
    requires Sound(s) && PossibleRun(env, s, ops) && forall i | 0 <= i < |ops| :: FromRuns(ops[i])
    ensures Sound(Run(env, s, ops))
    decreases |ops|
  {
    hide Sound, Step, Possible, FromRuns;
    if ops != [] {
      StepSound(env, s, ops[0]);
      RunSound(env, Step(env, s, ops[0]).0, ops[1..]);
    }
  }

  /** Main result: in every history, each GDS submission comes after a verification of the same input of the same
      version, observed to succeed, and then a simulation of it, observed to succeed, with no edit of the version
      since; the verification run it names is such a run. */
  lemma NoGdsRunWithoutChecks(env: Env, ops: seq<Op>, t: nat)
    requires PossibleRun(env, EMPTY, ops) && forall i | 0 <= i < |ops| :: FromRuns(ops[i])
    requires var h := Run(env, EMPTY, ops).history; t < |h| && h[t].Submission? && h[t].task.GdsTask?
    ensures var h := Run(env, EMPTY, ops).history; var task := h[t].task;
            && Checked(h, task.versionId, task.inputId, t)
            && VerifiedRun(h, task.versionId, task.inputId, task.verificationRunId, t)
  {
    hide Step, Possible, Run, Checked, VerifiedRun;
    RunSound(env, EMPTY, ops);
    assert TaskChecked(Run(env, EMPTY, ops).history, t);
  }

  lemma EvidenceHasChecks(env: Env, ops: seq<Op>, id: string)
    requires PossibleRun(env, EMPTY, ops) && forall i | 0 <= i < |ops| :: FromRuns(ops[i])
    requires var s := Run(env, EMPTY, ops); id in s.evidence && IsGdsSuccess(s.evidence[id])
    ensures var s := Run(env, EMPTY, ops); CheckedBy(s, s.evidence[id].candidateId)
  {
    hide Step, Possible, Run, Checked, IsGdsSuccess;
    RunSound(env, EMPTY, ops);
    assert EvidenceChecked(Run(env, EMPTY, ops), Run(env, EMPTY, ops).evidence[id]);
  }

  /** The history so far holds the checks of the version's input. */
  ghost predicate CheckedBy(s: State, versionId: string) {
    && versionId in s.versions
    && exists to: nat :: to <= |s.history| && Checked(s.history, versionId, InputOf(s.versions[versionId]), to)
  }

  /** The call at `n` is the one that filed the evidence found in the end, and when it was done the checks were in the
      history. */
  ghost predicate FiledAfterChecks(env: Env, ops: seq<Op>, id: string, n: nat)
    requires PossibleRun(env, EMPTY, ops)
  {
    && n < |ops| && PossibleRun(env, EMPTY, ops[..n]) && PossibleRun(env, EMPTY, ops[..n + 1])
    && id !in Run(env, EMPTY, ops[..n]).evidence
    && var t := Run(env, EMPTY, ops[..n + 1]); var u := Run(env, EMPTY, ops);
       && id in t.evidence && id in u.evidence && t.evidence[id] == u.evidence[id]
       && CheckedBy(t, t.evidence[id].candidateId)
  }

  lemma {:induction false} FirstFiled(env: Env, s: State, ops: seq<Op>, id: string) returns (n: nat)
    requires Keyed(s.versions) && PossibleRun(env, s, ops) && id !in s.evidence && id in Run(env, s, ops).evidence
    ensures n < |ops| && PossibleRun(env, s, ops[..n]) && PossibleRun(env, s, ops[..n + 1])
    ensures id !in Run(env, s, ops[..n]).evidence && id in Run(env, s, ops[..n + 1]).evidence
    ensures Run(env, s, ops[..n + 1]).evidence[id] == Run(env, s, ops).evidence[id]
    decreases |ops|
  {
    hide Step, Possible;
    var t := Step(env, s, ops[0]).0;
    StepMoves(env, s, ops[0]);
    if id in t.evidence {
      n := 0;
      assert ops[..0] == [] && ops[..1] == [ops[0]] && ops[..1][1..] == [];
      RunKeepsVerdicts(env, t, ops[1..]);
    } else {
      var m := FirstFiled(env, t, ops[1..], id);
      n := m + 1;
      assert ops[..n][1..] == ops[1..][..m] && ops[..n + 1][1..] == ops[1..][..m + 1];
      assert ops[..n][0] == ops[0] == ops[..n + 1][0];
    }
  }

  /** Main result: the same for every successful GDS evidence: when the call that filed it was done, the history held a
      successful verification and then a successful simulation of the version's input. */
  lemma NoGdsEvidenceWithoutChecks(env: Env, ops: seq<Op>, id: string)
    requires PossibleRun(env, EMPTY, ops) && forall i | 0 <= i < |ops| :: FromRuns(ops[i])
    requires var s := Run(env, EMPTY, ops); id in s.evidence && IsGdsSuccess(s.evidence[id])
    ensures var s := Run(env, EMPTY, ops); CheckedBy(s, s.evidence[id].candidateId)
    ensures exists n: nat :: FiledAfterChecks(env, ops, id, n)
  {
    hide Step, Possible, Run, PossibleRun, Checked, IsGdsSuccess, CheckedBy;
    EvidenceHasChecks(env, ops, id);
    var n := FirstFiled(env, EMPTY, ops, id);
    EvidenceHasChecks(env, ops[..n + 1], id);
    assert FiledAfterChecks(env, ops, id, n);
  }
}
