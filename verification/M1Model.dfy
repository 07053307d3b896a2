/** The M1 service as a state machine: its dictionaries, the rows of its store, and what one call does to them.
    Calls run one at a time. Every call is a function from a state to the next state and how the call ended, so that
    whole histories of calls can be reasoned about. `M1Service` shows that the mutable service follows it. */
module M1Model {
  import opened Wrappers
  import opened Text
  import opened Values
  import opened Contracts

  /** Rows of the store, by primary key. */
  datatype Tables = Tables(
    sessions: map<string, Value>, versions: map<string, Value>, packages: map<string, Value>,
    evidence: map<string, Value>, owners: map<string, string>, outcomes: map<string, Value>)

  datatype OracleStage = StageArtifact(id: string) | StageInput(id: string)

  /** What is submitted for execution; the fields that depend on the service's state. */
  datatype Task =
    | VerifyTask(taskId: string, versionId: string, inputId: string, specId: string, top: string,
                 verificationId: string, compileChecks: seq<string>)
    | SimulateTask(taskId: string, versionId: string, inputId: string, specId: string, top: string,
                   verificationId: string, simulationTop: string, oracle: OracleStage)
    | GdsTask(taskId: string, versionId: string, inputId: string, top: string, verificationId: string,
              fingerprint: string, rtlSha256: string, verificationRunId: Option<string>, pdk: string,
              design: string, clock: Option<string>, clockPeriod: Value)

  /** What happened, in order. */
  datatype Event =
    | Created(versionId: string)
    | Edited(versionId: string)
    | Submission(task: Task, runId: string)
    | Observation(runId: string, status: string)

  datatype State = State(
    sessions: map<string, M1Session>, versions: map<string, RTLVersion>,
    packages: map<string, VerificationPackage>, evidence: map<string, EvidenceRef>,
    outcomes: map<string, M1RunOutcome>, rows: Tables, history: seq<Event>)

  const NO_ROWS := Tables(map[], map[], map[], map[], map[], map[])
  const EMPTY := State(map[], map[], map[], map[], map[], NO_ROWS, [])

  /** What the execution service answers to a submission. */
  datatype V2Reply = Accepted(runId: string) | NoRun

  // ----- writing one record through to the store -----

  function Log(s: State, e: Event): State {
    s.(history := s.history + [e])
  }

  function PutSession(s: State, x: M1Session): State {
    s.(sessions := s.sessions[x.specId := x],
       rows := s.rows.(sessions := s.rows.sessions[x.specId := EncodeSession(x)]))
  }

  /** The dictionary alone: the write that followed was refused. */
  function KeepSession(s: State, x: M1Session): State {
    s.(sessions := s.sessions[x.specId := x])
  }

  function KeepVersion(s: State, x: RTLVersion): State {
    s.(versions := s.versions[x.versionId := x])
  }

  function PutVersion(s: State, x: RTLVersion): State {
    s.(versions := s.versions[x.versionId := x],
       rows := s.rows.(versions := s.rows.versions[x.versionId := EncodeVersion(x)]))
  }

  function PutPackage(s: State, x: VerificationPackage): State {
    s.(packages := s.packages[x.specId := x],
       rows := s.rows.(packages := s.rows.packages[x.specId := EncodePackage(x)]))
  }

  function PutEvidence(s: State, x: EvidenceRef): State {
    s.(evidence := s.evidence[x.evidenceId := x],
       rows := s.rows.(evidence := s.rows.evidence[x.evidenceId := EncodeEvidence(x)]))
  }

  function PutOutcome(s: State, x: M1RunOutcome): State {
    s.(outcomes := s.outcomes[x.runId := x],
       rows := s.rows.(outcomes := s.rows.outcomes[x.runId := EncodeOutcome(x)]))
  }

  function PutOwner(s: State, runId: string, ownerId: string): State {
    s.(rows := s.rows.(owners := s.rows.owners[runId := ownerId]))
  }

  // ----- specifications -----

  const DEFAULT_QUESTION := "Provide an executable clock, reset, port, and acceptance definition."
  const PERIOD_QUESTION := "What clock period in nanoseconds should the frozen recipe use?"

  predicate PositiveNumber(v: Value) {
    match v
    case VInt(i) => i > 0
    case VFloat(num, den) => den > 0 && num > 0
    case _ => false
  }

  predicate HasPeriod(spec: SpecIR) {
    "clock_period_ns" in spec.constraints && PositiveNumber(spec.constraints["clock_period_ns"])
  }

  function ClarificationQuestions(spec: SpecIR): seq<string> {
    if spec.clock.None? || HasPeriod(spec) then [] else [PERIOD_QUESTION]
  }

  predicate Given(s: Option<string>) {
    s.Some? && s.value != ""
  }

  /** Updates its dictionary before it saves, so a spec that JSON refuses stays in the dictionary. */
  function AssessSpec(s: State, uuid: string, owner: string, spec: Option<SpecIR>, questions: seq<string>,
                      reason: Option<string>): (State, Reply<M1Session>)
  {
    if spec.Some? && (questions != [] || Given(reason)) then (s, Raise(ValueError))
    else if !Given(reason) && questions == [] && spec.Some? && !spec.value.Valid() then (s, Raise(ValueError))
    else
      var asked :=
        if Given(reason) || questions != [] then questions
        else if spec.None? then [DEFAULT_QUESTION]
        else ClarificationQuestions(spec.value);
      var state := if Given(reason) then UnsupportedScope else if asked != [] then NeedsClarification else Specified;
      var session := M1Session("spec-" + uuid, owner, state, spec, asked, reason, None);
      if !session.Valid() then (s, Raise(ValueError))
      else if !IsWritable(session) then (KeepSession(s, session), Raise(TypeError))
      else (PutSession(s, session), Return(session))
  }

  function FreezeSpec(env: Env, s: State, specId: string): (State, Reply<M1Session>) {
    if specId !in s.sessions then (s, Raise(KeyError))
    else
      var session := s.sessions[specId];
      if session.state != Specified || session.spec.None? || !session.spec.value.Valid() then (s, Raise(ValueError))
      else if !IsWritable(session) then (s, Raise(TypeError))
      else
        var frozen := session.(state := Frozen, frozenFingerprint := Some(Fingerprint(env, session.spec.value)));
        if frozen.Valid() then (PutSession(s, frozen), Return(frozen)) else (s, Raise(ValueError))
  }

  function RegisterPackage(s: State, specId: string, package: VerificationPackage)
    : (State, Reply<VerificationPackage>)
  {
    if specId !in s.sessions then (s, Raise(KeyError))
    else if s.sessions[specId].state != Frozen || package.specId != specId || !package.Valid()
            || specId in s.packages then (s, Raise(ValueError))
    else (PutPackage(s, package), Return(package))
  }

  // ----- RTL versions -----

  /** The parent of an edit: both checks and their runs are withdrawn. */
  function Withdrawn(v: RTLVersion): RTLVersion {
    v.(verificationStatus := Invalidated, verificationRunId := None,
       simulationStatus := Invalidated, simulationRunId := None)
  }

  function NewVersion(env: Env, uuid: string, specId: string, source: string, generator: string,
                      parent: Option<string>, sourceRef: Option<string>): RTLVersion
  {
    RTLVersion("rtl-" + uuid, specId, env.shaOfText(source), generator, NotRun, None, NotRun, None, parent, sourceRef)
  }

  function AddVersion(s: State, v: RTLVersion): (State, Reply<RTLVersion>) {
    if v.Valid() then (Log(PutVersion(s, v), Created(v.versionId)), Return(v)) else (s, Raise(ValueError))
  }

  /** A new version; when it edits a parent, the parent is withdrawn before the new version is validated. */
  function CreateVersion(env: Env, s: State, uuid: string, specId: string, source: string, generator: string,
                         parent: Option<string>, sourceRef: Option<string>): (State, Reply<RTLVersion>)
  {
    var v := NewVersion(env, uuid, specId, source, generator, parent, sourceRef);
    if specId !in s.sessions then (s, Raise(KeyError))
    else if s.sessions[specId].state != Frozen || !NonBlank(source) then (s, Raise(ValueError))
    else if parent.None? then AddVersion(s, v)
    else if parent.value !in s.versions then (s, Raise(KeyError))
    else if s.versions[parent.value].specId != specId then (s, Raise(ValueError))
    else
      var withdrawn := Withdrawn(s.versions[parent.value]);
      if !withdrawn.Valid() then (Log(KeepVersion(s, withdrawn), Edited(withdrawn.versionId)), Raise(ValueError))
      else AddVersion(Log(PutVersion(s, withdrawn), Edited(withdrawn.versionId)), v)
  }

  // ----- recording results -----

  function RecordVerification(s: State, versionId: string, status: CheckStatus, runId: string)
    : (State, Reply<RTLVersion>)
  {
    if versionId !in s.versions then (s, Raise(KeyError))
    else
      var version := s.versions[versionId];
      var updated := version.(verificationStatus := status, verificationRunId := Some(runId));
      if version.verificationStatus == Invalidated || !(status.Passed? || status.Failed?) || !updated.Valid()
      then (s, Raise(ValueError))
      else (PutVersion(s, updated), Return(updated))
  }

  function RecordSimulation(s: State, versionId: string, status: CheckStatus, runId: string)
    : (State, Reply<RTLVersion>)
  {
    if versionId !in s.versions then (s, Raise(KeyError))
    else
      var version := s.versions[versionId];
      var updated := version.(simulationStatus := status, simulationRunId := Some(runId));
      if version.verificationStatus != Passed || !(status.Passed? || status.Failed?) || !updated.Valid()
      then (s, Raise(ValueError))
      else (PutVersion(s, updated), Return(updated))
  }

  const TERMINAL := {"succeeded", "failed", "cancelled", "timed_out"}

  function Result(status: string): CheckStatus {
    if status == "succeeded" then Passed else Failed
  }

  /** One iteration of `observe_run`: `seen` is the version as it was when the loop started. */
  function ObserveVersion(s: State, versionId: string, seen: RTLVersion, runId: string, status: string)
    : (State, Reply<()>)
  {
    var (s1, r1) :=
      if seen.verificationRunId == Some(runId) && seen.verificationStatus == Running
      then RecordVerification(s, versionId, Result(status), runId)
      else (s, Return(seen));
    if r1.Raise? then (s1, Raise(r1.error))
    else if seen.simulationRunId == Some(runId) && seen.simulationStatus == Running then
      var (s2, r2) := RecordSimulation(s1, versionId, Result(status), runId);
      if r2.Raise? then (s2, Raise(r2.error)) else (s2, Return(()))
    else (s1, Return(()))
  }

  function ObserveAll(s: State, snapshot: map<string, RTLVersion>, order: seq<string>, runId: string,
                      status: string): (State, Reply<()>)
    requires forall i | 0 <= i < |order| :: order[i] in snapshot
    decreases |order|
  {
    if order == [] then (s, Return(()))
    else
      var (s1, r1) := ObserveVersion(s, order[0], snapshot[order[0]], runId, status);
      if r1.Raise? then (s1, r1) else ObserveAll(s1, snapshot, order[1..], runId, status)
  }

  /** `order` lists the keys of a dictionary, each once: the order in which Python iterates it. */
  predicate Enumerates<T>(order: seq<string>, m: map<string, T>) {
    && (forall i | 0 <= i < |order| :: order[i] in m)
    && (forall k | k in m :: k in order)
    && (forall i, j | 0 <= i < j < |order| :: order[i] != order[j])
  }

  function ObserveRun(s: State, runId: string, status: string, order: seq<string>): (State, Reply<()>)
    requires Enumerates(order, s.versions)
  {
    if status !in TERMINAL then (s, Return(()))
    else ObserveAll(Log(s, Observation(runId, status)), s.versions, order, runId, status)
  }

  // ----- building and submitting tasks -----

  function VerifyTaskId(versionId: string): string { "m1-verify-" + versionId }
  function SimulateTaskId(versionId: string): string { "m1-sim-" + versionId }
  function GdsTaskId(versionId: string, pdk: string): string { "m1-gds-" + versionId + "-" + pdk }

  function BuildVerification(s: State, versionId: string, admitted: bool): Reply<Task> {
    if versionId !in s.versions then Raise(KeyError)
    else
      var version := s.versions[versionId];
      if version.specId !in s.sessions then Raise(KeyError)
      else
        var session := s.sessions[version.specId];
        if session.state != Frozen || session.spec.None? || !Given(version.sourceRef)
           || version.specId !in s.packages || !admitted then Raise(ValueError)
        else
          var package := s.packages[version.specId];
          Return(VerifyTask(VerifyTaskId(version.versionId), version.versionId,
                            RemovePrefix(version.sourceRef.value, "input:"), version.specId,
                            session.spec.value.top, package.verificationId, package.compileChecks))
  }

  function OracleOf(package: VerificationPackage): Option<OracleStage> {
    if |package.simulationOracleRefs| != 1 then None
    else
      var ref := package.simulationOracleRefs[0];
      var stage :- (if "artifact:" <= ref then Some(StageArtifact(RemovePrefix(ref, "artifact:")))
                    else if "source:" <= ref then Some(StageInput(RemovePrefix(ref, "source:")))
                    else None);
      if stage.id == "" then None else Some(stage)
  }

  function BuildSimulation(s: State, versionId: string, admitted: bool): Reply<Task> {
    if versionId !in s.versions then Raise(KeyError)
    else
      var version := s.versions[versionId];
      if version.specId !in s.sessions then Raise(KeyError)
      else
        var session := s.sessions[version.specId];
        if session.state != Frozen || session.spec.None? || version.verificationStatus != Passed
           || !Given(version.sourceRef) || version.specId !in s.packages then Raise(ValueError)
        else
          var package := s.packages[version.specId];
          var oracle := OracleOf(package);
          if oracle.None? || !Given(package.simulationTop) || !admitted then Raise(ValueError)
          else
            Return(SimulateTask(SimulateTaskId(version.versionId), version.versionId,
                                RemovePrefix(version.sourceRef.value, "input:"), version.specId,
                                session.spec.value.top, package.verificationId, package.simulationTop.value,
                                oracle.value))
  }

  function BuildGds(env: Env, s: State, versionId: string, pdk: string, admitted: bool): Reply<Task> {
    if versionId !in s.versions then Raise(KeyError)
    else
      var version := s.versions[versionId];
      if version.verificationStatus != Passed || !Given(version.sourceRef) || pdk != "nangate45"
      then Raise(ValueError)
      else if version.specId !in s.sessions then Raise(KeyError)
      else
        var session := s.sessions[version.specId];
        if session.state != Frozen || session.spec.None? || version.specId !in s.packages
           || version.simulationStatus != Passed || !admitted then Raise(ValueError)
        else
          var spec := session.spec.value;
          if spec.clock.Some? && "clock_period_ns" !in spec.constraints then Raise(KeyError)
          else
            Return(GdsTask(GdsTaskId(version.versionId, pdk), version.versionId,
                           RemovePrefix(version.sourceRef.value, "input:"), spec.top,
                           s.packages[version.specId].verificationId, Fingerprint(env, spec), version.rtlSha256,
                           version.verificationRunId, pdk, spec.designId, spec.clock,
                           if spec.clock.Some? then spec.constraints["clock_period_ns"] else VNull))
  }

  /** The run id of an accepted submission. */
  function RunOf(v2: V2Reply): Option<string> {
    if v2.Accepted? && v2.runId != "" then Some(v2.runId) else None
  }

  /** Saves before it updates its dictionary, so a refused record leaves both as they were. */
  function SubmitVerification(s: State, versionId: string, admitted: bool, v2: V2Reply): (State, Reply<string>) {
    var task := BuildVerification(s, versionId, admitted);
    if task.Raise? then (s, Raise(task.error))
    else if RunOf(v2).None? then (s, Raise(ValueError))
    else
      var runId := v2.runId;
      var s1 := Log(s, Submission(task.value, runId));
      var updated := s.versions[versionId].(verificationStatus := Running, verificationRunId := Some(runId));
      if updated.Valid() then (PutVersion(s1, updated), Return(runId)) else (s1, Raise(ValueError))
  }

  /** Updates its dictionary before it saves, so a refused record stays in the dictionary. */
  function SubmitSimulation(s: State, versionId: string, admitted: bool, v2: V2Reply): (State, Reply<string>) {
    var task := BuildSimulation(s, versionId, admitted);
    if task.Raise? then (s, Raise(task.error))
    else if RunOf(v2).None? then (s, Raise(ValueError))
    else
      var runId := v2.runId;
      var s1 := Log(s, Submission(task.value, runId));
      var updated := s.versions[versionId].(simulationStatus := Running, simulationRunId := Some(runId));
      if updated.Valid() then (PutVersion(s1, updated), Return(runId))
      else (KeepVersion(s1, updated), Raise(ValueError))
  }

  function SubmitGds(env: Env, s: State, versionId: string, pdk: string, admitted: bool, v2: V2Reply)
    : (State, Reply<string>)
  {
    var task := BuildGds(env, s, versionId, pdk, admitted);
    if task.Raise? then (s, Raise(task.error))
    else if RunOf(v2).None? then (s, Raise(ValueError))
    else
      var s1 := Log(s, Submission(task.value, v2.runId));
      (PutOwner(s1, v2.runId, s.sessions[s.versions[versionId].specId].ownerId), Return(v2.runId))
  }

  // ----- evidence -----

  predicate HasGdsArtifact(e: EvidenceRef) {
    exists i | 0 <= i < |e.artifactIds| :: "artifact:gds" <= e.artifactIds[i]
  }

  predicate IsGdsSuccess(e: EvidenceRef) {
    e.evidenceKind == "rtl_to_gds" && e.status == "succeeded"
  }

  function RecordEvidence(env: Env, s: State, e: EvidenceRef): (State, Reply<EvidenceRef>) {
    if !e.Valid(env) then (s, Raise(ValueError))
    else if e.specId !in s.sessions || e.candidateId !in s.versions then (s, Raise(KeyError))
    else
      var version := s.versions[e.candidateId];
      if s.sessions[e.specId].ownerId != e.ownerId || version.specId != e.specId then (s, Raise(ValueError))
      else if IsGdsSuccess(e) && !(HasGdsArtifact(e) && version.verificationStatus == Passed
                                   && version.simulationStatus == Passed) then (s, Raise(ValueError))
      else if e.evidenceId in s.evidence then (s, Raise(ValueError))
      else (PutEvidence(s, e), Return(e))
  }

  /** An artifact record of a finished run; each member may be missing. */
  datatype Artifact = Artifact(kind: Option<string>, artifactId: Option<string>, format: Option<string>,
                               storeKey: Option<string>, sha256: Option<string>)

  datatype Verdict = Evidenced(evidence: EvidenceRef) | GdsIncomplete(outcome: M1RunOutcome)

  const REQUIRED_KINDS := ["gds", "def", "odb", "netlist", "report"]
  const SORTED_KINDS := ["def", "gds", "netlist", "odb", "report"]

  /** The artifact a dictionary keyed by kind keeps: the last one of that kind. */
  function LastOfKind(artifacts: seq<Artifact>, kind: string): Option<Artifact> {
    if artifacts == [] then None
    else if artifacts[|artifacts| - 1].kind == Some(kind) then Some(artifacts[|artifacts| - 1])
    else LastOfKind(artifacts[..|artifacts| - 1], kind)
  }

  function FirstWith(artifacts: seq<Artifact>, p: Artifact -> bool): Option<Artifact> {
    if artifacts == [] then None
    else if p(artifacts[0]) then Some(artifacts[0])
    else FirstWith(artifacts[1..], p)
  }

  function Snapshot(artifacts: seq<Artifact>): Option<Artifact> {
    FirstWith(artifacts, (a: Artifact) => a.format == Some("toolchain-snapshot"))
  }

  function Protocol(artifacts: seq<Artifact>): Option<Artifact> {
    FirstWith(artifacts, (a: Artifact) => a.storeKey == Some("plan.json"))
  }

  function MissingKinds(artifacts: seq<Artifact>, kinds: seq<string>): seq<string> {
    if kinds == [] then []
    else (if LastOfKind(artifacts, kinds[0]).None? then [kinds[0]] else []) + MissingKinds(artifacts, kinds[1..])
  }

  /** What a run lacks, in the order the reason lists it; each metric is given as whether it is complete. */
  function Missing(artifacts: seq<Artifact>, metrics: seq<bool>): seq<string> {
    MissingKinds(artifacts, SORTED_KINDS)
    + (if metrics == [] || false in metrics then ["metrics"] else [])
    + (if Snapshot(artifacts).None? then ["toolchain_snapshot"] else [])
    + (if Protocol(artifacts).None? then ["protocol_digest"] else [])
  }

  function JoinComma(parts: seq<string>): string {
    if |parts| == 0 then "" else if |parts| == 1 then parts[0] else parts[0] + ", " + JoinComma(parts[1..])
  }

  /** Ids of every artifact that has both a kind and an id. */
  function ListedArtifacts(artifacts: seq<Artifact>): seq<string> {
    if artifacts == [] then []
    else
      var a := artifacts[0];
      (if a.kind.Some? && a.artifactId.Some? then ["artifact:" + a.kind.value + ":" + a.artifactId.value] else [])
      + ListedArtifacts(artifacts[1..])
  }

  function KindRefs(artifacts: seq<Artifact>, kinds: seq<string>): Option<seq<string>> {
    if kinds == [] then Some([])
    else
      var a :- LastOfKind(artifacts, kinds[0]);
      var id :- a.artifactId;
      var rest :- KindRefs(artifacts, kinds[1..]);
      Some(["artifact:" + kinds[0] + ":" + id] + rest)
  }

  function GdsOutcome(versionId: string, runId: string, artifacts: seq<Artifact>, pdk: string, metrics: seq<bool>)
    : M1RunOutcome
  {
    M1RunOutcome(runId, versionId, pdk, "gds_incomplete", "missing " + JoinComma(Missing(artifacts, metrics)),
                 ListedArtifacts(artifacts))
  }

  /** The evidence of a complete run, when every member it reads is there. */
  function GdsEvidence(env: Env, s: State, versionId: string, runId: string, artifacts: seq<Artifact>, pdk: string,
                       now: string): Option<EvidenceRef>
  {
    var refs :- KindRefs(artifacts, REQUIRED_KINDS);
    if versionId !in s.versions || s.versions[versionId].specId !in s.sessions then None
    else
      var specId := s.versions[versionId].specId;
      var snapshot :- Snapshot(artifacts);
      var toolchain :- snapshot.sha256;
      var plan :- Protocol(artifacts);
      var protocol :- plan.sha256;
      var payload := VMap(map["candidate_id" := VStr(versionId), "run_id" := VStr(runId),
                              "artifact_ids" := Strings(refs), "pdk" := VStr(pdk)]);
      Some(EvidenceRef("evidence:" + runId, s.sessions[specId].ownerId, specId, versionId, runId, refs,
                       "rtl_to_gds", "succeeded", env.shaOfValue(payload), toolchain, protocol,
                       "Verified " + pdk + " RTL-to-GDS teaching run.", now, SCHEMA_VERSION))
  }

  function RecordGdsEvidence(env: Env, s: State, versionId: string, runId: string, artifacts: seq<Artifact>,
                             pdk: string, metrics: seq<bool>, now: string): (State, Reply<Verdict>)
  {
    if "evidence:" + runId in s.evidence then (s, Return(Evidenced(s.evidence["evidence:" + runId])))
    else if runId in s.outcomes then (s, Return(GdsIncomplete(s.outcomes[runId])))
    else if Missing(artifacts, metrics) != [] then
      var outcome := GdsOutcome(versionId, runId, artifacts, pdk, metrics);
      if outcome.Valid() then (PutOutcome(s, outcome), Return(GdsIncomplete(outcome))) else (s, Raise(ValueError))
    else
      var evidence := GdsEvidence(env, s, versionId, runId, artifacts, pdk, now);
      if evidence.None? then (s, Raise(KeyError))
      else
        var (s1, r) := RecordEvidence(env, s, evidence.value);
        if r.Raise? then (s1, Raise(r.error)) else (s1, Return(Evidenced(r.value)))
  }

  // ----- run ownership -----

  predicate Carries(v: RTLVersion, runId: string) {
    v.verificationRunId == Some(runId) || v.simulationRunId == Some(runId)
  }

  /** The first listed version carrying the run. */
  function CarrierOf(s: State, runId: string, order: seq<string>): (r: Option<string>)
    requires forall i | 0 <= i < |order| :: order[i] in s.versions
    ensures r.Some? ==> r.value in s.versions && Carries(s.versions[r.value], runId)
    ensures r.None? ==> forall i | 0 <= i < |order| :: !Carries(s.versions[order[i]], runId)
  {
    if order == [] then None
    else if Carries(s.versions[order[0]], runId) then Some(order[0])
    else CarrierOf(s, runId, order[1..])
  }

  function OwnerByEvidence(s: State, runId: string, order: seq<string>): Option<string>
    requires forall i | 0 <= i < |order| :: order[i] in s.evidence
  {
    if order == [] then None
    else if s.evidence[order[0]].runId == runId then Some(s.evidence[order[0]].ownerId)
    else OwnerByEvidence(s, runId, order[1..])
  }

  function OwnerOf(s: State, runId: string, versionOrder: seq<string>, evidenceOrder: seq<string>): Option<string>
    requires Enumerates(versionOrder, s.versions) && Enumerates(evidenceOrder, s.evidence)
  {
    if runId in s.rows.owners then Some(s.rows.owners[runId])
    else
      var carrier := CarrierOf(s, runId, versionOrder);
      if carrier.None? then OwnerByEvidence(s, runId, evidenceOrder)
      else
        var specId := s.versions[carrier.value].specId;
        if specId in s.sessions then Some(s.sessions[specId].ownerId) else None
  }

  function AssertRunOwner(s: State, runId: string, owner: string, versionOrder: seq<string>,
                          evidenceOrder: seq<string>): Reply<()>
    requires Enumerates(versionOrder, s.versions) && Enumerates(evidenceOrder, s.evidence)
  {
    var found := OwnerOf(s, runId, versionOrder, evidenceOrder);
    if found.None? then Raise(KeyError) else if found.value != owner then Raise(PermissionError) else Return(())
  }

  // ----- one request for a run -----

  const GDS_PREFIX := "m1-gds-"

  function TaskVersion(taskId: string): string {
    BeforeLast(RemovePrefix(taskId, GDS_PREFIX), '-')
  }

  function TaskPdk(taskId: string): string {
    AfterLast(taskId, '-')
  }

  /** What the execution service reports about a run. */
  datatype RunRecord = RunRecord(status: string, taskId: string, artifacts: seq<Artifact>, metrics: seq<bool>)

  /** The server's request for one run: check the owner, observe, and record the verdict of a finished GDS run. */
  function GetRun(env: Env, s: State, owner: string, runId: string, run: RunRecord, now: string,
                  versionOrder: seq<string>, evidenceOrder: seq<string>): (State, Reply<Option<Verdict>>)
    requires Enumerates(versionOrder, s.versions) && Enumerates(evidenceOrder, s.evidence)
  {
    if runId == "" || !Free(runId, '/') then (s, Raise(ValueError))
    else
      var allowed := AssertRunOwner(s, runId, owner, versionOrder, evidenceOrder);
      if allowed.Raise? then (s, Raise(allowed.error))
      else
        var (s1, r1) := ObserveRun(s, runId, run.status, versionOrder);
        if r1.Raise? then (s1, Raise(r1.error))
        else if run.status == "succeeded" && GDS_PREFIX <= run.taskId then
          var (s2, r2) := RecordGdsEvidence(env, s1, TaskVersion(run.taskId), runId, run.artifacts,
                                            TaskPdk(run.taskId), run.metrics, now);
          if r2.Raise? then (s2, Raise(r2.error)) else (s2, Return(Some(r2.value)))
        else (s1, Return(None))
  }

  // ----- whole histories -----

  datatype Op =
    | Assess(uuid: string, owner: string, spec: Option<SpecIR>, questions: seq<string>, reason: Option<string>)
    | Freeze(specId: string)
    | Register(specId: string, package: VerificationPackage)
    | Create(uuid: string, specId: string, source: string, generator: string, parent: Option<string>,
             sourceRef: Option<string>)
    | Verify(versionId: string, admitted: bool, v2: V2Reply)
    | Simulate(versionId: string, admitted: bool, v2: V2Reply)
    | Gds(versionId: string, pdk: string, admitted: bool, v2: V2Reply)
    | Observe(runId: string, status: string, order: seq<string>)
    | Request(owner: string, runId: string, run: RunRecord, now: string, order: seq<string>,
              evidenceOrder: seq<string>)
    | Judge(versionId: string, runId: string, artifacts: seq<Artifact>, pdk: string, metrics: seq<bool>, now: string)
    | AddEvidence(evidence: EvidenceRef)
    | SetVerification(versionId: string, result: CheckStatus, runId: string)
    | SetSimulation(versionId: string, result: CheckStatus, runId: string)

  /** What the environment guarantees of a call: fresh uuids, and iteration orders that list the dictionaries. */
  predicate Possible(s: State, op: Op) {
    match op
    case Assess(uuid, _, _, _, _) => "spec-" + uuid !in s.sessions
    case Create(uuid, _, _, _, _, _) => "rtl-" + uuid !in s.versions
    case Observe(_, _, order) => Enumerates(order, s.versions)
    case Request(_, _, _, _, order, evidenceOrder) =>
      Enumerates(order, s.versions) && Enumerates(evidenceOrder, s.evidence)
    case _ => true
  }

  function Ended<T>(r: Reply<T>): Reply<()> {
    if r.Return? then Return(()) else Raise(r.error)
  }

  function Step(env: Env, s: State, op: Op): (State, Reply<()>)
    requires Possible(s, op)
  {
    match op
    case Assess(uuid, owner, spec, questions, reason) =>
      var (s1, r) := AssessSpec(s, uuid, owner, spec, questions, reason); (s1, Ended(r))
    case Freeze(specId) => var (s1, r) := FreezeSpec(env, s, specId); (s1, Ended(r))
    case Register(specId, package) => var (s1, r) := RegisterPackage(s, specId, package); (s1, Ended(r))
    case Create(uuid, specId, source, generator, parent, sourceRef) =>
      var (s1, r) := CreateVersion(env, s, uuid, specId, source, generator, parent, sourceRef); (s1, Ended(r))
    case Verify(id, admitted, v2) => var (s1, r) := SubmitVerification(s, id, admitted, v2); (s1, Ended(r))
    case Simulate(id, admitted, v2) => var (s1, r) := SubmitSimulation(s, id, admitted, v2); (s1, Ended(r))
    case Gds(id, pdk, admitted, v2) => var (s1, r) := SubmitGds(env, s, id, pdk, admitted, v2); (s1, Ended(r))
    case Observe(runId, status, order) => ObserveRun(s, runId, status, order)
    case Request(owner, runId, run, now, order, evidenceOrder) =>
      var (s1, r) := GetRun(env, s, owner, runId, run, now, order, evidenceOrder); (s1, Ended(r))
    case Judge(id, runId, artifacts, pdk, metrics, now) =>
      var (s1, r) := RecordGdsEvidence(env, s, id, runId, artifacts, pdk, metrics, now); (s1, Ended(r))
    case AddEvidence(e) => var (s1, r) := RecordEvidence(env, s, e); (s1, Ended(r))
    case SetVerification(id, status, runId) => var (s1, r) := RecordVerification(s, id, status, runId); (s1, Ended(r))
    case SetSimulation(id, status, runId) => var (s1, r) := RecordSimulation(s, id, status, runId); (s1, Ended(r))
  }

  /** A list of calls that can be made from `s`, one after the other, whether or not they raise. */
  predicate PossibleRun(env: Env, s: State, ops: seq<Op>)
    decreases |ops|
  {
    ops == [] || (Possible(s, ops[0]) && PossibleRun(env, Step(env, s, ops[0]).0, ops[1..]))
  }

  function Run(env: Env, s: State, ops: seq<Op>): State
    requires PossibleRun(env, s, ops)
    decreases |ops|
  {
    if ops == [] then s else Run(env, Step(env, s, ops[0]).0, ops[1..])
  }

  /** Only sessions, packages and rows can differ. */
  predicate OnlySpecificationsDiffer(s: State, t: State) {
    t == s.(sessions := t.sessions, packages := t.packages, rows := t.rows)
  }

  lemma AssessFrame(s: State, uuid: string, owner: string, spec: Option<SpecIR>, questions: seq<string>,
                    reason: Option<string>)
    ensures var t := AssessSpec(s, uuid, owner, spec, questions, reason).0;
            OnlySpecificationsDiffer(s, t) && t.rows.owners == s.rows.owners && t.packages == s.packages
  {
    hide M1Session.Valid, SpecIR.Valid, ClarificationQuestions, EncodeSession, IsWritable;
  }

  lemma FreezeFrame(env: Env, s: State, specId: string)
    ensures var t := FreezeSpec(env, s, specId).0;
            OnlySpecificationsDiffer(s, t) && t.rows.owners == s.rows.owners && t.packages == s.packages
  {
    hide M1Session.Valid, SpecIR.Valid, EncodeSession, IsWritable, Fingerprint;
  }

  lemma RegisterFrame(s: State, specId: string, package: VerificationPackage)
    ensures var t := RegisterPackage(s, specId, package).0;
            OnlySpecificationsDiffer(s, t) && t.rows.owners == s.rows.owners && s.packages.Keys <= t.packages.Keys
  {
    hide VerificationPackage.Valid, EncodePackage;
  }

  /** The calls about specifications touch neither versions, evidence, run owners nor the history. */
  lemma SpecificationsFrame(env: Env, s: State, op: Op)
    requires Possible(s, op) && (op.Assess? || op.Freeze? || op.Register?)
    ensures OnlySpecificationsDiffer(s, Step(env, s, op).0)
    ensures Step(env, s, op).0.rows.owners == s.rows.owners
    ensures s.packages.Keys <= Step(env, s, op).0.packages.Keys
  {
    hide AssessSpec, FreezeSpec, RegisterPackage;
    match op {
      case Assess(uuid, owner, spec, questions, reason) => AssessFrame(s, uuid, owner, spec, questions, reason);
      case Freeze(specId) => FreezeFrame(env, s, specId);
      case Register(specId, package) => RegisterFrame(s, specId, package);
    }
  }
}
