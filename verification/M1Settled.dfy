/** How long the result of a check stays: over every history of calls a check that is not running keeps its status and
    its run until it is reopened by a resubmission, a direct recording or an edit of the version. */
module M1Settled {
  import opened Wrappers
  import opened Text
  import opened Contracts
  import opened M1Model
  import opened M1Observe
  import opened M1Lineage

  /** An edit of the version that passes its checks. */
  predicate Edits(s: State, op: Op, id: string) {
    && op.Create? && op.parent == Some(id) && id in s.versions && s.versions[id].specId == op.specId
    && op.specId in s.sessions && s.sessions[op.specId].state == Frozen && NonBlank(op.source)
  }

  /** The calls that replace the verification result: a submission or a direct recording that returns, and an edit. */
  predicate ReopensVerification(s: State, op: Op, id: string) {
    || (op.Verify? && op.versionId == id && SubmitVerification(s, id, op.admitted, op.v2).1.Return?)
    || (op.SetVerification? && op.versionId == id && RecordVerification(s, id, op.result, op.runId).1.Return?)
    || Edits(s, op, id)
  }

  /** The same for the simulation result; a submission also replaces it when its record is then refused. */
  predicate ReopensSimulation(s: State, op: Op, id: string) {
    || (op.Simulate? && op.versionId == id && BuildSimulation(s, id, op.admitted).Return? && RunOf(op.v2).Some?)
    || (op.SetSimulation? && op.versionId == id && RecordSimulation(s, id, op.result, op.runId).1.Return?)
    || Edits(s, op, id)
  }

  function VerificationOf(v: RTLVersion): (CheckStatus, Option<string>) {
    (v.verificationStatus, v.verificationRunId)
  }

  function SimulationOf(v: RTLVersion): (CheckStatus, Option<string>) {
    (v.simulationStatus, v.simulationRunId)
  }

  /** A version keeps whichever of its two results the flags name. */
  predicate Keeps(v: RTLVersion, w: RTLVersion, verification: bool, simulation: bool) {
    && (verification ==> VerificationOf(w) == VerificationOf(v))
    && (simulation ==> SimulationOf(w) == SimulationOf(v))
  }

  // ----- one call -----

  lemma ObservedKeepsSettled(v: RTLVersion, runId: string, status: string)
    ensures Keeps(v, Observed(v, runId, status), v.verificationStatus != Running, v.simulationStatus != Running)
    ensures Keeps(v, WithVerification(v, runId, status), v.verificationStatus != Running, true)
  {
  }

  lemma ObservingKeepsSettled(s: State, runId: string, status: string, order: seq<string>, id: string)
    requires Keyed(s.versions) && Enumerates(order, s.versions) && id in s.versions
    ensures var t := ObserveRun(s, runId, status, order).0; var v := s.versions[id];
            id in t.versions
            && Keeps(v, t.versions[id], v.verificationStatus != Running, v.simulationStatus != Running)
  {
    if status in TERMINAL {
      ObserveRunIsPointwise(s, runId, status, order);
      ObservedKeepsSettled(s.versions[id], runId, status);
      hide ObserveRun, Observed, WithVerification;
    }
  }

  lemma CreatingKeepsSettled(env: Env, s: State, op: Op, id: string)
    requires op.Create? && Possible(s, op) && id in s.versions && Keyed(s.versions) && !Edits(s, op, id)
    ensures var t := CreateVersion(env, s, op.uuid, op.specId, op.source, op.generator, op.parent, op.sourceRef).0;
            id in t.versions && t.versions[id] == s.versions[id]
  {
    hide RTLVersion.Valid, NonBlank, EncodeVersion;
  }

  lemma VerifyingKeepsSettled(s: State, versionId: string, admitted: bool, v2: V2Reply, id: string)
    requires id in s.versions && Keyed(s.versions)
    ensures var (t, r) := SubmitVerification(s, versionId, admitted, v2);
            id in t.versions && Keeps(s.versions[id], t.versions[id], versionId != id || r.Raise?, true)
  {
    BuiltForTheVersion(s, versionId, admitted);
    hide RTLVersion.Valid, EncodeVersion, BuildVerification;
  }

  lemma SimulatingKeepsSettled(s: State, versionId: string, admitted: bool, v2: V2Reply, id: string)
    requires id in s.versions && Keyed(s.versions)
    ensures var t := SubmitSimulation(s, versionId, admitted, v2).0;
            id in t.versions
            && Keeps(s.versions[id], t.versions[id], true,
                     versionId != id || BuildSimulation(s, id, admitted).Raise? || RunOf(v2).None?)
  {
    BuiltForTheVersion(s, versionId, admitted);
    hide RTLVersion.Valid, EncodeVersion, BuildSimulation;
  }

  lemma RecordingKeepsSettled(s: State, versionId: string, status: CheckStatus, runId: string, id: string)
    requires id in s.versions && Keyed(s.versions)
    ensures var (t, r) := RecordVerification(s, versionId, status, runId);
            id in t.versions && Keeps(s.versions[id], t.versions[id], versionId != id || r.Raise?, true)
    ensures var (t, r) := RecordSimulation(s, versionId, status, runId);
            id in t.versions && Keeps(s.versions[id], t.versions[id], true, versionId != id || r.Raise?)
  {
    hide RTLVersion.Valid, EncodeVersion;
  }

  lemma RequestKeepsSettled(env: Env, s: State, op: Op, id: string)
    requires Keyed(s.versions) && op.Request? && Possible(s, op) && id in s.versions
    ensures var t := Step(env, s, op).0; var v := s.versions[id];
            id in t.versions
            && Keeps(v, t.versions[id], v.verificationStatus != Running, v.simulationStatus != Running)
  {
    hide ObserveRun, RecordGdsEvidence, AssertRunOwner, TaskVersion, TaskPdk;
    ObservingKeepsSettled(s, op.runId, op.run.status, op.order, id);
    var t := ObserveRun(s, op.runId, op.run.status, op.order).0;
    EvidenceFrames(env, t, EvidenceRef("", "", "", "", "", [], "", "", "", "", "", "", "", 0),
                   TaskVersion(op.run.taskId), op.runId, op.run.artifacts, TaskPdk(op.run.taskId), op.run.metrics,
                   op.now);
  }

  /** One call changes a result that is not running only if it reopens it. */
  lemma StepKeepsSettled(env: Env, s: State, op: Op, id: string)
    requires Keyed(s.versions) && Possible(s, op) && id in s.versions
    ensures var t := Step(env, s, op).0; var v := s.versions[id];
            id in t.versions
            && Keeps(v, t.versions[id], v.verificationStatus != Running && !ReopensVerification(s, op, id),
                     v.simulationStatus != Running && !ReopensSimulation(s, op, id))
  {
    hide CreateVersion, SubmitVerification, SubmitSimulation, BuildSimulation, ObserveRun, RecordVerification;
    hide RecordSimulation, RunOf, VerificationOf, SimulationOf;
    match op {
      case Create(_, _, _, _, _, _) =>
        StepMoves(env, s, op);
        if !Edits(s, op, id) { CreatingKeepsSettled(env, s, op, id); }
      case Verify(versionId, admitted, v2) => VerifyingKeepsSettled(s, versionId, admitted, v2, id);
      case Simulate(versionId, admitted, v2) => SimulatingKeepsSettled(s, versionId, admitted, v2, id);
      case Observe(runId, status, order) => ObservingKeepsSettled(s, runId, status, order, id);
      case Request(_, _, _, _, _, _) => RequestKeepsSettled(env, s, op, id);
      case SetVerification(versionId, result, runId) => RecordingKeepsSettled(s, versionId, result, runId, id);
      case SetSimulation(versionId, result, runId) => RecordingKeepsSettled(s, versionId, result, runId, id);
      case _ => OthersKeepVersions(env, s, op);
    }
  }

  /** What reopening a verification leaves: running with the run it was given, the recorded result, or nothing. */
  lemma ReopenedVerification(env: Env, s: State, op: Op, id: string)
    requires Keyed(s.versions) && Possible(s, op) && id in s.versions && ReopensVerification(s, op, id)
    ensures var t := Step(env, s, op).0;
            && id in t.versions
            && VerificationOf(t.versions[id]) ==
               if op.Verify? then (Running, Some(op.v2.runId))
               else if op.SetVerification? then (op.result, Some(op.runId)) else (Invalidated, None)
  {
    hide CreateVersion, SubmitVerification, RecordVerification;
    if op.Verify? {
      VerifyReplaces(s, id, op.admitted, op.v2);
    } else if op.SetVerification? {
      RecordingReplaces(s, id, op.result, op.runId);
    } else {
      EditWithdraws(env, s, op, id);
    }
  }

  /** The same for a simulation. */
  lemma ReopenedSimulation(env: Env, s: State, op: Op, id: string)
    requires Keyed(s.versions) && Possible(s, op) && id in s.versions && ReopensSimulation(s, op, id)
    ensures var t := Step(env, s, op).0;
            && id in t.versions
            && SimulationOf(t.versions[id]) ==
               if op.Simulate? then (Running, Some(op.v2.runId))
               else if op.SetSimulation? then (op.result, Some(op.runId)) else (Invalidated, None)
  {
    hide CreateVersion, SubmitSimulation, BuildSimulation, RecordSimulation;
    if op.Simulate? {
      SimulateReplaces(s, id, op.admitted, op.v2);
    } else if op.SetSimulation? {
      RecordingReplaces(s, id, op.result, op.runId);
    } else {
      EditWithdraws(env, s, op, id);
    }
  }

  lemma EditWithdraws(env: Env, s: State, op: Op, id: string)
    requires Keyed(s.versions) && Possible(s, op) && Edits(s, op, id)
    ensures var t := CreateVersion(env, s, op.uuid, op.specId, op.source, op.generator, op.parent, op.sourceRef).0;
            id in t.versions && IsWithdrawn(t.versions[id])
  {
    hide RTLVersion.Valid, NonBlank, EncodeVersion;
  }

  lemma VerifyReplaces(s: State, id: string, admitted: bool, v2: V2Reply)
    requires id in s.versions && Keyed(s.versions)
    ensures var (t, r) := SubmitVerification(s, id, admitted, v2);
            r.Return? ==> v2.Accepted? && id in t.versions
                          && VerificationOf(t.versions[id]) == (Running, Some(v2.runId))
  {
    hide RTLVersion.Valid, EncodeVersion, BuildVerification;
  }

  lemma SimulateReplaces(s: State, id: string, admitted: bool, v2: V2Reply)
    requires id in s.versions && Keyed(s.versions)
    ensures var t := SubmitSimulation(s, id, admitted, v2).0;
            BuildSimulation(s, id, admitted).Return? && RunOf(v2).Some? ==>
              id in t.versions && SimulationOf(t.versions[id]) == (Running, Some(v2.runId))
  {
    hide RTLVersion.Valid, EncodeVersion, BuildSimulation;
  }

  lemma RecordingReplaces(s: State, id: string, status: CheckStatus, runId: string)
    requires id in s.versions && Keyed(s.versions)
    ensures var (t, r) := RecordVerification(s, id, status, runId);
            r.Return? ==> id in t.versions && VerificationOf(t.versions[id]) == (status, Some(runId))
    ensures var (t, r) := RecordSimulation(s, id, status, runId);
            r.Return? ==> id in t.versions && SimulationOf(t.versions[id]) == (status, Some(runId))
  {
    hide RTLVersion.Valid, EncodeVersion;
  }

  // ----- whole histories -----

  /** No call of the list reopens the verification result. */
  predicate VerificationLeft(env: Env, s: State, ops: seq<Op>, id: string)
    requires PossibleRun(env, s, ops)
    decreases |ops|
  {
    ops == [] || (!ReopensVerification(s, ops[0], id) && VerificationLeft(env, Step(env, s, ops[0]).0, ops[1..], id))
  }

  predicate SimulationLeft(env: Env, s: State, ops: seq<Op>, id: string)
    requires PossibleRun(env, s, ops)
    decreases |ops|
  {
    ops == [] || (!ReopensSimulation(s, ops[0], id) && SimulationLeft(env, Step(env, s, ops[0]).0, ops[1..], id))
  }

  /** Main result: along any history that does not reopen it, a verification that is not running keeps its status and
      its run, and so does a simulation. */
  lemma {:induction false} SettledChecksStay(env: Env, s: State, ops: seq<Op>, id: string)
    requires Keyed(s.versions) && PossibleRun(env, s, ops) && id in s.versions
    ensures var v, t := s.versions[id], Run(env, s, ops);
            && id in t.versions
            && (v.verificationStatus != Running && VerificationLeft(env, s, ops, id) ==>
                  VerificationOf(t.versions[id]) == VerificationOf(v))
            && (v.simulationStatus != Running && SimulationLeft(env, s, ops, id) ==>
                  SimulationOf(t.versions[id]) == SimulationOf(v))
    decreases |ops|
  {
    hide Step, Possible, ReopensVerification, ReopensSimulation;
    if ops != [] {
      StepKeepsSettled(env, s, ops[0], id);
      StepMoves(env, s, ops[0]);
      SettledChecksStay(env, Step(env, s, ops[0]).0, ops[1..], id);
    }
  }

  /** Main result: the first terminal status a returning observation records stays, whatever is called afterwards, until
      a call reopens the check: later observations of the run, with any status, do not move it. */
  lemma FirstStatusStaysUntilReopened(env: Env, s: State, runId: string, status: string, order: seq<string>,
                                      ops: seq<Op>, id: string)
    requires Keyed(s.versions) && Enumerates(order, s.versions) && status in TERMINAL && id in s.versions
    requires ObserveRun(s, runId, status, order).1.Return?
    requires PossibleRun(env, ObserveRun(s, runId, status, order).0, ops)
    ensures var t := ObserveRun(s, runId, status, order).0; var u := Run(env, t, ops);
            && id in u.versions
            && (AwaitsVerification(s.versions[id], runId) && VerificationLeft(env, t, ops, id) ==>
                  VerificationOf(u.versions[id]) == (Result(status), Some(runId)))
            && (AwaitsSimulation(s.versions[id], runId) && SimulationLeft(env, t, ops, id) ==>
                  SimulationOf(u.versions[id]) == (Result(status), Some(runId)))
  {
    ObserveRunIsPointwise(s, runId, status, order);
    ObserveMoves(s, runId, status, order);
    ResultIsTerminal(status);
    hide ObserveRun, Run, PossibleRun, VerificationLeft, SimulationLeft, Result;
    SettledChecksStay(env, ObserveRun(s, runId, status, order).0, ops, id);
  }
}
