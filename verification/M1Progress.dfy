/** The gate before GDS can be passed: from any state in which a version has what the checks need, the ordinary sequence
    of calls ends in a GDS submission. With an execution service that answers a task id always with the same run, and
    runs with one terminal status each, it can be passed exactly for the versions whose own two runs succeed. */
module M1Progress {
  import opened Wrappers
  import opened Contracts
  import opened M1Model
  import opened M1Observe

  /** What a client can look up before it starts: the version stages an input, its spec is frozen, and the spec's
      package names one oracle and a simulation top. The version may be new, failed, or withdrawn by an edit. */
  predicate Ready(s: State, id: string) {
    && Keyed(s.versions) && id in s.versions && s.versions[id].Valid() && Given(s.versions[id].sourceRef)
    && var specId := s.versions[id].specId;
       && specId in s.sessions && s.sessions[specId].state == Frozen && s.sessions[specId].spec.Some?
       && (var spec := s.sessions[specId].spec.value; spec.clock.Some? ==> "clock_period_ns" in spec.constraints)
       && specId in s.packages && OracleOf(s.packages[specId]).Some? && Given(s.packages[specId].simulationTop)
  }

  /** No other version carries the run. */
  predicate OwnRun(s: State, id: string, runId: string) {
    forall k | k in s.versions && k != id :: !Carries(s.versions[k], runId)
  }

  /** The history grew by one event, and of sessions, packages and versions only one version's record differs. */
  predicate OneVersionChanged(s: State, t: State, id: string, v: RTLVersion) {
    && t.versions == s.versions[id := v] && t.sessions == s.sessions && t.packages == s.packages
    && |t.history| == |s.history| + 1
  }

  function Verifying(v: RTLVersion, runId: string): RTLVersion {
    v.(verificationStatus := Running, verificationRunId := Some(runId))
  }

  function Simulating(v: RTLVersion, runId: string): RTLVersion {
    v.(simulationStatus := Running, simulationRunId := Some(runId))
  }

  lemma VerifyStep(s: State, id: string, runId: string)
    requires Ready(s, id) && IsBoundedId(runId)
    ensures var t := SubmitVerification(s, id, true, Accepted(runId)).0;
            OneVersionChanged(s, t, id, Verifying(s.versions[id], runId)) && Ready(t, id)
  {
    hide EncodeVersion, OracleOf, IsBoundedId, IsDigest;
    assert runId != "" by { BoundedIsGiven(runId); }
  }

  lemma BoundedIsGiven(runId: string)
    requires IsBoundedId(runId)
    ensures runId != ""
  {
  }

  lemma SimulateStep(s: State, id: string, runId: string)
    requires Ready(s, id) && IsBoundedId(runId) && s.versions[id].verificationStatus == Passed
    ensures var t := SubmitSimulation(s, id, true, Accepted(runId)).0;
            OneVersionChanged(s, t, id, Simulating(s.versions[id], runId)) && Ready(t, id)
  {
    hide EncodeVersion, OracleOf, IsBoundedId, IsDigest;
    assert runId != "" by { BoundedIsGiven(runId); }
  }

  /** A successful observation of a run that one version alone carries and that nothing blocks. */
  lemma ObserveStep(s: State, id: string, runId: string, order: seq<string>)
    requires Ready(s, id) && Enumerates(order, s.versions)
    requires OwnRun(s, id, runId)
    requires AwaitsSimulation(s.versions[id], runId) ==> s.versions[id].verificationStatus == Passed
    ensures var t := ObserveRun(s, runId, "succeeded", order).0;
            OneVersionChanged(s, t, id, Observed(s.versions[id], runId, "succeeded")) && Ready(t, id)
  {
    hide EncodeVersion, ObserveRun, OracleOf;
    forall k | k in s.versions
      ensures !Blocks(s.versions[k], runId, "succeeded")
      ensures k != id ==> Observed(s.versions[k], runId, "succeeded") == s.versions[k]
    {
      if k == id { UnblockedWhenPassed(s.versions[id], runId); }
    }
    ObserveRunIsPointwise(s, runId, "succeeded", order);
    hide Blocks, Observed, RTLVersion.Valid;
    assert ObserveRun(s, runId, "succeeded", order).0.versions
        == s.versions[id := Observed(s.versions[id], runId, "succeeded")];
    ObservedIsValid(s.versions[id], runId);
  }

  lemma UnblockedWhenPassed(v: RTLVersion, runId: string)
    requires v.Valid() && (AwaitsSimulation(v, runId) ==> v.verificationStatus == Passed)
    ensures !Blocks(v, runId, "succeeded")
  {
  }

  lemma ObservedIsValid(v: RTLVersion, runId: string)
    requires v.Valid()
    ensures var w := Observed(v, runId, "succeeded");
            w.Valid() && w.versionId == v.versionId && w.specId == v.specId && w.sourceRef == v.sourceRef
  {
  }

  lemma GdsStep(env: Env, s: State, id: string, runId: string)
    requires Ready(s, id) && runId != ""
    requires s.versions[id].verificationStatus == Passed && s.versions[id].simulationStatus == Passed
    ensures var t := SubmitGds(env, s, id, "nangate45", true, Accepted(runId)).0;
            |t.history| == |s.history| + 1 && EndsInGds(t.history[|s.history|], id, runId)
  {
    hide OracleOf, Fingerprint, RTLVersion.Valid;
  }

  predicate EndsInGds(e: Event, id: string, runId: string) {
    e.Submission? && e.task.GdsTask? && e.task.versionId == id && e.runId == runId
  }

  lemma SameKeysEnumerate(order: seq<string>, m: map<string, RTLVersion>, n: map<string, RTLVersion>)
    requires Enumerates(order, m) && n.Keys == m.Keys
    ensures Enumerates(order, n)
  {
  }

  lemma RunUnfolds(env: Env, s: State, op: Op, ops: seq<Op>)
    requires Possible(s, op) && PossibleRun(env, Step(env, s, op).0, ops)
    ensures PossibleRun(env, s, [op] + ops) && Run(env, s, [op] + ops) == Run(env, Step(env, s, op).0, ops)
  {
    hide Possible, Step;
    assert ([op] + ops)[1..] == ops;
  }

  /** The ordinary calls for a version: verify, see it succeed, simulate, see it succeed, submit. */
  function OrdinaryCalls(id: string, verifyRun: string, simulateRun: string, gdsRun: string, order: seq<string>)
    : seq<Op>
  {
    [Verify(id, true, Accepted(verifyRun))] + ([Observe(verifyRun, "succeeded", order)]
    + ([Simulate(id, true, Accepted(simulateRun))] + ([Observe(simulateRun, "succeeded", order)]
    + ([Gds(id, "nangate45", true, Accepted(gdsRun))] + []))))
  }

  /** Main result: from every state in which a version is ready, the ordinary calls can be made and, when the execution
      service lets both runs succeed, end in a GDS submission for that version. The runs may be ones the version was
      given before. */
  lemma GateOpens(env: Env, s: State, id: string, verifyRun: string, simulateRun: string, gdsRun: string,
                  order: seq<string>)
    requires Ready(s, id) && Enumerates(order, s.versions)
    requires IsBoundedId(verifyRun) && IsBoundedId(simulateRun) && gdsRun != ""
    requires OwnRun(s, id, verifyRun) && OwnRun(s, id, simulateRun) && s.versions[id].simulationRunId != Some(verifyRun)
    ensures PossibleRun(env, s, OrdinaryCalls(id, verifyRun, simulateRun, gdsRun, order))
    ensures var h := Run(env, s, OrdinaryCalls(id, verifyRun, simulateRun, gdsRun, order)).history;
            |h| == |s.history| + 5 && EndsInGds(h[|s.history| + 4], id, gdsRun)
  {
    hide Ready, SubmitVerification, SubmitSimulation, SubmitGds, ObserveRun, Run, PossibleRun, Enumerates, IsBoundedId;
    ReadyIsThere(s, id);
    var a := SubmitVerification(s, id, true, Accepted(verifyRun)).0;
    VerifyStep(s, id, verifyRun);
    SameKeysEnumerate(order, s.versions, a.versions);
    var b := ObserveRun(a, verifyRun, "succeeded", order).0;
    ObserveStep(a, id, verifyRun, order);
    SameKeysEnumerate(order, s.versions, b.versions);
    assert b.versions[id].verificationStatus == Passed;
    var c := SubmitSimulation(b, id, true, Accepted(simulateRun)).0;
    SimulateStep(b, id, simulateRun);
    SameKeysEnumerate(order, s.versions, c.versions);
    var d := ObserveRun(c, simulateRun, "succeeded", order).0;
    ObserveStep(c, id, simulateRun, order);
    assert d.versions[id].verificationStatus == Passed && d.versions[id].simulationStatus == Passed;
    GdsStep(env, d, id, gdsRun);
    Chain(env, s, id, verifyRun, simulateRun, gdsRun, order);
  }

  lemma ReadyIsThere(s: State, id: string)
    requires Ready(s, id)
    ensures id in s.versions
  {
  }

  /** The run of the ordinary calls, call by call. */
  lemma Chain(env: Env, s: State, id: string, verifyRun: string, simulateRun: string, gdsRun: string,
              order: seq<string>)
    requires var a := SubmitVerification(s, id, true, Accepted(verifyRun)).0;
             && Enumerates(order, a.versions)
             && var b := ObserveRun(a, verifyRun, "succeeded", order).0;
                var c := SubmitSimulation(b, id, true, Accepted(simulateRun)).0;
                Enumerates(order, c.versions)
    ensures PossibleRun(env, s, OrdinaryCalls(id, verifyRun, simulateRun, gdsRun, order))
    ensures var a := SubmitVerification(s, id, true, Accepted(verifyRun)).0;
            var b := ObserveRun(a, verifyRun, "succeeded", order).0;
            var c := SubmitSimulation(b, id, true, Accepted(simulateRun)).0;
            var d := ObserveRun(c, simulateRun, "succeeded", order).0;
            Run(env, s, OrdinaryCalls(id, verifyRun, simulateRun, gdsRun, order))
              == SubmitGds(env, d, id, "nangate45", true, Accepted(gdsRun)).0
  {
    hide SubmitVerification, SubmitSimulation, SubmitGds, ObserveRun, Enumerates;
    var a := SubmitVerification(s, id, true, Accepted(verifyRun)).0;
    var b := ObserveRun(a, verifyRun, "succeeded", order).0;
    var c := SubmitSimulation(b, id, true, Accepted(simulateRun)).0;
    var d := ObserveRun(c, simulateRun, "succeeded", order).0;
    var last := [Gds(id, "nangate45", true, Accepted(gdsRun))] + [];
    RunUnfolds(env, d, Gds(id, "nangate45", true, Accepted(gdsRun)), []);
    var fourth := [Observe(simulateRun, "succeeded", order)] + last;
    RunUnfolds(env, c, Observe(simulateRun, "succeeded", order), last);
    var third := [Simulate(id, true, Accepted(simulateRun))] + fourth;
    RunUnfolds(env, b, Simulate(id, true, Accepted(simulateRun)), fourth);
    var second := [Observe(verifyRun, "succeeded", order)] + third;
    RunUnfolds(env, a, Observe(verifyRun, "succeeded", order), third);
    RunUnfolds(env, s, Verify(id, true, Accepted(verifyRun)), second);
  }
}
