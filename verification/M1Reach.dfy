/** Which versions can be taken to GDS at all. The execution service answers a task id always with the same run, and a
    run ends in one way; then a version passes a check only if its own run of that check succeeds, and a ready version
    reaches GDS exactly if both do, however often it is submitted, edited or observed. */
module M1Reach {
  import opened Wrappers
  import opened Contracts
  import opened M1Model
  import opened M1Observe
  import opened M1Lineage
  import opened M1Ownership
  import opened M1Progress

  // ----- histories with one outcome per run -----

  /** A terminal status told about a run is the one it ended with. */
  predicate Told(final: string -> string, op: Op) {
    match op
    case Observe(runId, status, _) => status in TERMINAL ==> status == final(runId)
    case Request(_, runId, run, _, _, _) => run.status in TERMINAL ==> run.status == final(runId)
    case _ => true
  }

  predicate Consistent(oracle: string -> string, final: string -> string, ops: seq<Op>) {
    forall i | 0 <= i < |ops| :: Served(oracle, ops[i]) && Told(final, ops[i])
  }

  predicate Succeeds(oracle: string -> string, final: string -> string, taskId: string) {
    final(oracle(taskId)) == "succeeded"
  }

  // ----- what a version and an event say about the runs -----

  /** A check carries only its own run, a running or passed one carries it, and a passed one succeeded. */
  predicate CheckTrue(status: CheckStatus, runId: Option<string>, own: string, final: string -> string) {
    && (runId.Some? ==> runId.value == own)
    && (status == Running || status == Passed ==> runId.Some?)
    && (status == Passed ==> final(own) == "succeeded")
  }

  predicate VersionTrue(oracle: string -> string, final: string -> string, v: RTLVersion) {
    && CheckTrue(v.verificationStatus, v.verificationRunId, oracle(VerifyTaskId(v.versionId)), final)
    && CheckTrue(v.simulationStatus, v.simulationRunId, oracle(SimulateTaskId(v.versionId)), final)
  }

  /** What was submitted had the checks it needs behind it. */
  predicate EventTrue(oracle: string -> string, final: string -> string, e: Event) {
    e.Submission? ==>
      && (e.task.SimulateTask? || e.task.GdsTask? ==> Succeeds(oracle, final, VerifyTaskId(e.task.versionId)))
      && (e.task.GdsTask? ==> Succeeds(oracle, final, SimulateTaskId(e.task.versionId)))
  }

  predicate VersionsTrue(oracle: string -> string, final: string -> string, versions: map<string, RTLVersion>) {
    Keyed(versions) && forall id | id in versions :: VersionTrue(oracle, final, versions[id])
  }

  ghost predicate AllTrue(oracle: string -> string, final: string -> string, s: State) {
    && VersionsTrue(oracle, final, s.versions)
    && (forall n | 0 <= n < |s.history| :: EventTrue(oracle, final, s.history[n]))
  }

  // ----- one call -----

  lemma ObservedTrue(oracle: string -> string, final: string -> string, v: RTLVersion, runId: string, status: string)
    requires VersionTrue(oracle, final, v) && status == final(runId)
    ensures VersionTrue(oracle, final, Observed(v, runId, status))
    ensures VersionTrue(oracle, final, WithVerification(v, runId, status))
    ensures Observed(v, runId, status).versionId == v.versionId == WithVerification(v, runId, status).versionId
  {
    ResultIsTerminal(status);
  }

  lemma ObserveTrue(oracle: string -> string, final: string -> string, s: State, runId: string, status: string,
                    order: seq<string>)
    requires AllTrue(oracle, final, s) && Enumerates(order, s.versions)
    requires status in TERMINAL ==> status == final(runId)
    ensures AllTrue(oracle, final, ObserveRun(s, runId, status, order).0)
  {
    if status in TERMINAL {
      ObserveRunIsPointwise(s, runId, status, order);
      var t := ObserveRun(s, runId, status, order).0;
      hide ObserveRun, VersionTrue, Observed, WithVerification, Blocks;
      assert t.history == s.history + [Observation(runId, status)];
      forall id | id in t.versions
        ensures VersionTrue(oracle, final, t.versions[id]) && t.versions[id].versionId == id
      {
        ObservedTrue(oracle, final, s.versions[id], runId, status);
      }
    }
  }

  /** One more event, and one version's record replaced by another true one. */
  lemma SubmissionTrue(oracle: string -> string, final: string -> string, s: State, e: Event, v: RTLVersion)
    requires AllTrue(oracle, final, s) && EventTrue(oracle, final, e) && VersionTrue(oracle, final, v)
    ensures AllTrue(oracle, final, Log(s, e))
    ensures AllTrue(oracle, final, KeepVersion(Log(s, e), v)) && AllTrue(oracle, final, PutVersion(Log(s, e), v))
  {
    hide VersionTrue, EventTrue, EncodeVersion;
  }

  lemma VerifyTrue(oracle: string -> string, final: string -> string, s: State, id: string, admitted: bool, v2: V2Reply)
    requires AllTrue(oracle, final, s) && (v2.Accepted? ==> v2.runId == oracle(VerifyTaskId(id)))
    ensures AllTrue(oracle, final, SubmitVerification(s, id, admitted, v2).0)
  {
    BuiltForTheVersion(s, id, admitted);
    var built := BuildVerification(s, id, admitted);
    if built.Return? && RunOf(v2).Some? {
      assert built.value.VerifyTask?;
      hide AllTrue, BuildVerification, RTLVersion.Valid;
      var v := Verifying(s.versions[id], v2.runId);
      StoredIsTrue(oracle, final, s, id);
      SubmissionTrue(oracle, final, s, Submission(built.value, v2.runId), v);
    }
  }

  lemma StoredIsTrue(oracle: string -> string, final: string -> string, s: State, id: string)
    requires AllTrue(oracle, final, s) && id in s.versions
    ensures VersionTrue(oracle, final, s.versions[id]) && s.versions[id].versionId == id
  {
  }

  lemma SimulateTrue(oracle: string -> string, final: string -> string, s: State, id: string, admitted: bool,
                     v2: V2Reply)
    requires AllTrue(oracle, final, s) && (v2.Accepted? ==> v2.runId == oracle(SimulateTaskId(id)))
    ensures AllTrue(oracle, final, SubmitSimulation(s, id, admitted, v2).0)
  {
    BuiltForTheVersion(s, id, admitted);
    var built := BuildSimulation(s, id, admitted);
    if built.Return? && RunOf(v2).Some? {
      assert built.value.SimulateTask? && s.versions[id].verificationStatus == Passed by { hide OracleOf; }
      hide AllTrue, BuildSimulation, RTLVersion.Valid;
      var v := Simulating(s.versions[id], v2.runId);
      StoredIsTrue(oracle, final, s, id);
      SubmissionTrue(oracle, final, s, Submission(built.value, v2.runId), v);
    }
  }

  lemma GdsTrue(oracle: string -> string, final: string -> string, env: Env, s: State, id: string, pdk: string,
                admitted: bool, v2: V2Reply)
    requires AllTrue(oracle, final, s)
    ensures AllTrue(oracle, final, SubmitGds(env, s, id, pdk, admitted, v2).0)
  {
    var built := BuildGds(env, s, id, pdk, admitted);
    if built.Return? && RunOf(v2).Some? {
      assert s.versions[id].verificationStatus == Passed && s.versions[id].simulationStatus == Passed
             && built.value.versionId == s.versions[id].versionId by { hide Fingerprint; }
      hide AllTrue, BuildGds;
      StoredIsTrue(oracle, final, s, id);
      SubmissionTrue(oracle, final, s, Submission(built.value, v2.runId), s.versions[id]);
      OwnersAreNotRead(oracle, final, Log(s, Submission(built.value, v2.runId)), v2.runId,
                       s.sessions[s.versions[id].specId].ownerId);
    }
  }

  lemma OwnersAreNotRead(oracle: string -> string, final: string -> string, s: State, runId: string, owner: string)
    requires AllTrue(oracle, final, s)
    ensures AllTrue(oracle, final, PutOwner(s, runId, owner))
  {
    hide VersionTrue, EventTrue;
  }

  lemma CreateTrue(oracle: string -> string, final: string -> string, env: Env, s: State, uuid: string, specId: string,
                   source: string, generator: string, parent: Option<string>, sourceRef: Option<string>)
    requires AllTrue(oracle, final, s)
    ensures AllTrue(oracle, final, CreateVersion(env, s, uuid, specId, source, generator, parent, sourceRef).0)
  {
    CreateVersions(env, s, uuid, specId, source, generator, parent, sourceRef);
    CreateHistory(env, s, uuid, specId, source, generator, parent, sourceRef);
    var v := NewVersion(env, uuid, specId, source, generator, parent, sourceRef);
    assert VersionTrue(oracle, final, v);
    hide CreateVersion, NewVersion, Withdrawn, VersionTrue, VersionsTrue;
    PlaceTrue(oracle, final, s.versions, v);
    if parent.Some? && parent.value in s.versions {
      var w := Withdrawn(s.versions[parent.value]);
      WithdrawnTrue(oracle, final, s.versions, parent.value);
      PlaceTrue(oracle, final, s.versions, w);
      PlaceTrue(oracle, final, s.versions[parent.value := w], v);
    }
  }

  lemma PlaceTrue(oracle: string -> string, final: string -> string, versions: map<string, RTLVersion>, v: RTLVersion)
    requires VersionsTrue(oracle, final, versions) && VersionTrue(oracle, final, v)
    ensures VersionsTrue(oracle, final, versions[v.versionId := v])
  {
    hide VersionTrue;
  }

  lemma WithdrawnTrue(oracle: string -> string, final: string -> string, versions: map<string, RTLVersion>, id: string)
    requires VersionsTrue(oracle, final, versions) && id in versions
    ensures VersionTrue(oracle, final, Withdrawn(versions[id])) && Withdrawn(versions[id]).versionId == id
  {
  }

  lemma CreateHistory(env: Env, s: State, uuid: string, specId: string, source: string, generator: string,
                      parent: Option<string>, sourceRef: Option<string>)
    ensures var h := CreateVersion(env, s, uuid, specId, source, generator, parent, sourceRef).0.history;
            s.history <= h && forall n | |s.history| <= n < |h| :: !h[n].Submission?
  {
    hide RTLVersion.Valid, Text.NonBlank, EncodeVersion, Withdrawn, NewVersion;
  }

  lemma SameParts(oracle: string -> string, final: string -> string, s: State, t: State)
    requires AllTrue(oracle, final, s) && t.versions == s.versions && t.history == s.history
    ensures AllTrue(oracle, final, t)
  {
  }

  lemma RequestTrue(oracle: string -> string, final: string -> string, env: Env, s: State, op: Op)
    requires AllTrue(oracle, final, s) && op.Request? && Possible(s, op) && Told(final, op)
    ensures AllTrue(oracle, final, Step(env, s, op).0)
  {
    hide ObserveRun, RecordGdsEvidence, AssertRunOwner, TaskVersion, TaskPdk, AllTrue;
    var t := ObserveRun(s, op.runId, op.run.status, op.order).0;
    ObserveTrue(oracle, final, s, op.runId, op.run.status, op.order);
    EvidenceFrames(env, t, EvidenceRef("", "", "", "", "", [], "", "", "", "", "", "", "", 0),
                   TaskVersion(op.run.taskId), op.runId, op.run.artifacts, TaskPdk(op.run.taskId), op.run.metrics,
                   op.now);
    var u := RecordGdsEvidence(env, t, TaskVersion(op.run.taskId), op.runId, op.run.artifacts, TaskPdk(op.run.taskId),
                               op.run.metrics, op.now).0;
    SameParts(oracle, final, t, u);
  }

  lemma StepTrue(oracle: string -> string, final: string -> string, env: Env, s: State, op: Op)
    requires AllTrue(oracle, final, s) && Possible(s, op) && Served(oracle, op) && Told(final, op)
    ensures AllTrue(oracle, final, Step(env, s, op).0)
  {
    hide AllTrue, CreateVersion, SubmitVerification, SubmitSimulation, SubmitGds, ObserveRun;
    match op {
      case Assess(_, _, _, _, _) => SpecificationsFrame(env, s, op); SameParts(oracle, final, s, Step(env, s, op).0);
      case Freeze(_) => SpecificationsFrame(env, s, op); SameParts(oracle, final, s, Step(env, s, op).0);
      case Register(_, _) => SpecificationsFrame(env, s, op); SameParts(oracle, final, s, Step(env, s, op).0);
      case Create(uuid, specId, source, generator, parent, sourceRef) =>
        CreateTrue(oracle, final, env, s, uuid, specId, source, generator, parent, sourceRef);
      case Verify(id, admitted, v2) => VerifyTrue(oracle, final, s, id, admitted, v2);
      case Simulate(id, admitted, v2) => SimulateTrue(oracle, final, s, id, admitted, v2);
      case Gds(id, pdk, admitted, v2) => GdsTrue(oracle, final, env, s, id, pdk, admitted, v2);
      case Observe(runId, status, order) => ObserveTrue(oracle, final, s, runId, status, order);
      case Request(_, _, _, _, _, _) => RequestTrue(oracle, final, env, s, op);
    }
  }

  lemma {:induction false} RunTrue(oracle: string -> string, final: string -> string, env: Env, s: State, ops: seq<Op>)
    requires AllTrue(oracle, final, s) && PossibleRun(env, s, ops) && Consistent(oracle, final, ops)
    ensures AllTrue(oracle, final, Run(env, s, ops))
    decreases |ops|
  {
    hide Step, Possible, AllTrue, Served, Told;
    if ops != [] {
      StepTrue(oracle, final, env, s, ops[0]);
      RunTrue(oracle, final, env, Step(env, s, ops[0]).0, ops[1..]);
    }
  }

  lemma NothingIsTrue(oracle: string -> string, final: string -> string)
    ensures AllTrue(oracle, final, EMPTY)
  {
  }

  // ----- main results -----

  predicate SubmitsGds(e: Event, id: string) {
    e.Submission? && e.task.GdsTask? && e.task.versionId == id
  }

  /** Main result: in no history of the server's calls does a version pass a check whose own run did not succeed, nor is
      GDS submitted for it without both successes. */
  lemma NothingPassesWithoutItsOwnRun(oracle: string -> string, final: string -> string, env: Env, ops: seq<Op>,
                                      id: string)
    requires PossibleRun(env, EMPTY, ops) && Consistent(oracle, final, ops)
    ensures var s := Run(env, EMPTY, ops);
            && (id in s.versions && s.versions[id].verificationStatus == Passed ==>
                  Succeeds(oracle, final, VerifyTaskId(id)))
            && (id in s.versions && s.versions[id].simulationStatus == Passed ==>
                  Succeeds(oracle, final, SimulateTaskId(id)))
            && forall n | 0 <= n < |s.history| && SubmitsGds(s.history[n], id) ::
                 Succeeds(oracle, final, VerifyTaskId(id)) && Succeeds(oracle, final, SimulateTaskId(id))
  {
    hide Run, PossibleRun, Consistent;
    NothingIsTrue(oracle, final);
    RunTrue(oracle, final, env, EMPTY, ops);
    var s := Run(env, EMPTY, ops);
    if id in s.versions { StoredIsTrue(oracle, final, s, id); }
    forall n | 0 <= n < |s.history| && SubmitsGds(s.history[n], id)
      ensures Succeeds(oracle, final, VerifyTaskId(id)) && Succeeds(oracle, final, SimulateTaskId(id))
    {
      assert EventTrue(oracle, final, s.history[n]);
    }
  }

  /** Some continuation with the server's calls submits GDS for the version. */
  ghost predicate ReachesGds(oracle: string -> string, final: string -> string, env: Env, s: State, id: string) {
    exists ops :: PossibleRun(env, s, ops) && Consistent(oracle, final, ops) && SubmitsGdsWithin(env, s, ops, id)
  }

  ghost predicate SubmitsGdsWithin(env: Env, s: State, ops: seq<Op>, id: string)
    requires PossibleRun(env, s, ops)
  {
    exists n :: 0 <= n < |Run(env, s, ops).history| && |s.history| <= n && SubmitsGds(Run(env, s, ops).history[n], id)
  }

  /** The runs of a version are carried by no other, and not by its other check. */
  lemma RunsAreOwn(oracle: string -> string, final: string -> string, s: State, id: string)
    requires Injective(oracle) && AllTrue(oracle, final, s) && id in s.versions
    ensures OwnRun(s, id, oracle(VerifyTaskId(id))) && OwnRun(s, id, oracle(SimulateTaskId(id)))
    ensures s.versions[id].simulationRunId != Some(oracle(VerifyTaskId(id)))
  {
    assert forall a: string, b: string ::
      VerifyTaskId(a) != SimulateTaskId(b) && (VerifyTaskId(a) == VerifyTaskId(b) ==> a == b)
      && (SimulateTaskId(a) == SimulateTaskId(b) ==> a == b)
    by {
      forall a: string, b: string
        ensures VerifyTaskId(a) != SimulateTaskId(b) && (VerifyTaskId(a) == VerifyTaskId(b) ==> a == b)
        ensures SimulateTaskId(a) == SimulateTaskId(b) ==> a == b
      {
        assert VerifyTaskId(a)[3] == 'v' && SimulateTaskId(b)[3] == 's';
        assert VerifyTaskId(a)[10..] == a && VerifyTaskId(b)[10..] == b;
        assert SimulateTaskId(a)[7..] == a && SimulateTaskId(b)[7..] == b;
      }
    }
    hide VerifyTaskId, SimulateTaskId;
    forall k | k in s.versions
      ensures k != id ==> !Carries(s.versions[k], oracle(VerifyTaskId(id)))
      ensures k != id ==> !Carries(s.versions[k], oracle(SimulateTaskId(id)))
    {
      StoredIsTrue(oracle, final, s, k);
    }
    StoredIsTrue(oracle, final, s, id);
  }

  lemma {:induction false} SomeOrder(keys: set<string>) returns (order: seq<string>)
    ensures forall k :: k in order <==> k in keys
    ensures forall i, j | 0 <= i < j < |order| :: order[i] != order[j]
    decreases |keys|
  {
    if keys == {} {
      order := [];
    } else {
      var k :| k in keys;
      var rest := SomeOrder(keys - {k});
      order := [k] + rest;
    }
  }

  /** Main result: in every state the server reaches, a ready version can still be taken to GDS if and only if its own
      verification run and its own simulation run succeed. */
  lemma ReachesGdsExactlyWhenItsRunsSucceed(oracle: string -> string, final: string -> string, env: Env,
                                            before: seq<Op>, id: string)
    requires Injective(oracle) && PossibleRun(env, EMPTY, before) && Consistent(oracle, final, before)
    requires Ready(Run(env, EMPTY, before), id)
    requires IsBoundedId(oracle(VerifyTaskId(id))) && IsBoundedId(oracle(SimulateTaskId(id)))
    requires oracle(GdsTaskId(id, "nangate45")) != ""
    ensures ReachesGds(oracle, final, env, Run(env, EMPTY, before), id)
      <==> Succeeds(oracle, final, VerifyTaskId(id)) && Succeeds(oracle, final, SimulateTaskId(id))
  {
    var s := Run(env, EMPTY, before);
    NothingIsTrue(oracle, final);
    RunTrue(oracle, final, env, EMPTY, before);
    ReadyIsThere(s, id);
    hide AllTrue, Run, PossibleRun, Ready, Consistent, Succeeds, Injective, IsBoundedId;
    if ReachesGds(oracle, final, env, s, id) {
      var ops :| PossibleRun(env, s, ops) && Consistent(oracle, final, ops) && SubmitsGdsWithin(env, s, ops, id);
      RunTrue(oracle, final, env, s, ops);
      SubmissionsTellSuccess(oracle, final, Run(env, s, ops), id);
    }
    if Succeeds(oracle, final, VerifyTaskId(id)) && Succeeds(oracle, final, SimulateTaskId(id)) {
      SuccessReachesGds(oracle, final, env, s, id);
    }
  }

  lemma SubmissionsTellSuccess(oracle: string -> string, final: string -> string, s: State, id: string)
    requires AllTrue(oracle, final, s) && exists n :: 0 <= n < |s.history| && SubmitsGds(s.history[n], id)
    ensures Succeeds(oracle, final, VerifyTaskId(id)) && Succeeds(oracle, final, SimulateTaskId(id))
  {
    var n :| 0 <= n < |s.history| && SubmitsGds(s.history[n], id);
    assert EventTrue(oracle, final, s.history[n]);
  }

  lemma OrdinaryCallsAreConsistent(oracle: string -> string, final: string -> string, id: string, order: seq<string>)
    requires Succeeds(oracle, final, VerifyTaskId(id)) && Succeeds(oracle, final, SimulateTaskId(id))
    ensures Consistent(oracle, final, OrdinaryCalls(id, oracle(VerifyTaskId(id)), oracle(SimulateTaskId(id)),
                                                    oracle(GdsTaskId(id, "nangate45")), order))
  {
    hide VerifyTaskId, SimulateTaskId, GdsTaskId;
    var ops := OrdinaryCalls(id, oracle(VerifyTaskId(id)), oracle(SimulateTaskId(id)),
                             oracle(GdsTaskId(id, "nangate45")), order);
    forall i | 0 <= i < |ops| ensures Served(oracle, ops[i]) && Told(final, ops[i]) {
      assert i == 0 || i == 1 || i == 2 || i == 3 || i == 4;
    }
  }

  lemma SuccessReachesGds(oracle: string -> string, final: string -> string, env: Env, s: State, id: string)
    requires Injective(oracle) && AllTrue(oracle, final, s) && Ready(s, id) && id in s.versions
    requires IsBoundedId(oracle(VerifyTaskId(id))) && IsBoundedId(oracle(SimulateTaskId(id)))
    requires oracle(GdsTaskId(id, "nangate45")) != ""
    requires Succeeds(oracle, final, VerifyTaskId(id)) && Succeeds(oracle, final, SimulateTaskId(id))
    ensures ReachesGds(oracle, final, env, s, id)
  {
    var order := SomeOrder(s.versions.Keys);
    assert Enumerates(order, s.versions);
    RunsAreOwn(oracle, final, s, id);
    var verifyRun, simulateRun := oracle(VerifyTaskId(id)), oracle(SimulateTaskId(id));
    var gdsRun := oracle(GdsTaskId(id, "nangate45"));
    var ops := OrdinaryCalls(id, verifyRun, simulateRun, gdsRun, order);
    hide AllTrue, Ready, IsBoundedId, Enumerates, OwnRun, Injective;
    GateOpens(env, s, id, verifyRun, simulateRun, gdsRun, order);
    OrdinaryCallsAreConsistent(oracle, final, id, order);
    hide OrdinaryCalls, Consistent, Run, PossibleRun;
    assert SubmitsGds(Run(env, s, ops).history[|s.history| + 4], id);
  }
}
