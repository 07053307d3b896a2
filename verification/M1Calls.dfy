/** What one call does, for every call in every state: when it returns and with what, what it raises, and the state it
    leaves. All of it is said on the records themselves, whatever functions the call is composed of. */
module M1Calls {
  import opened Wrappers
  import opened Text
  import opened Values
  import opened Contracts
  import opened M1Model
  import opened M1Observe
  import opened M1Lineage
  import opened M1Ownership

  /** A version whose record is in order but for its runs, which a new status replaces. */
  predicate InOrder(v: RTLVersion) {
    v.(verificationRunId := None, simulationRunId := None).Valid()
  }

  // ----- a new version -----

  /** The session is frozen and there is RTL. */
  predicate MayCreate(s: State, op: Op)
    requires op.Create?
  {
    && op.specId in s.sessions && s.sessions[op.specId].state == Frozen
    && exists i | 0 <= i < |op.source| :: !IsSpace(op.source[i])
  }

  /** The call edits a stored version of the same spec. */
  predicate EditsParent(s: State, op: Op)
    requires op.Create?
  {
    MayCreate(s, op) && op.parent.Some? && op.parent.value in s.versions
    && s.versions[op.parent.value].specId == op.specId
  }

  /** The members of a new version have the form of a record. */
  predicate ChildInOrder(op: Op)
    requires op.Create?
  {
    && IsBoundedId("rtl-" + op.uuid) && IsBoundedId(op.specId) && IsBoundedId(op.generator)
    && (op.parent.Some? ==> IsBoundedId(op.parent.value) && op.parent.value != "rtl-" + op.uuid)
    && (op.sourceRef.Some? ==> "input:" <= op.sourceRef.value)
  }

  /** The versions after the withdrawal that comes first. */
  function AfterEdit(s: State, op: Op): map<string, RTLVersion>
    requires op.Create?
  {
    if EditsParent(s, op) then
      s.versions[op.parent.value :=
        s.versions[op.parent.value].(verificationStatus := Invalidated, verificationRunId := None,
                                     simulationStatus := Invalidated, simulationRunId := None)]
    else s.versions
  }

  /** When a creation returns, in every state, and which error the others raise. */
  lemma CreationReturns(env: Env, s: State, op: Op)
    requires op.Create? && Possible(s, op) && Keyed(s.versions) && env.Lawful()
    ensures var r := Step(env, s, op).1;
            && (r.Return? <==> && MayCreate(s, op) && ChildInOrder(op)
                               && (op.parent.Some? ==> EditsParent(s, op) && InOrder(s.versions[op.parent.value])))
            && (r == Raise(KeyError) <==>
                  || op.specId !in s.sessions
                  || (MayCreate(s, op) && op.parent.Some? && op.parent.value !in s.versions))
            && (r.Raise? ==> r.error == KeyError || r.error == ValueError)
  {
    hide IsBoundedId, IsDigest, EncodeVersion;
    assert IsDigest(env.shaOfText(op.source));
  }

  lemma AddingLeaves(s: State, v: RTLVersion)
    ensures var (t, r) := AddVersion(s, v);
            && t == s.(versions := t.versions, rows := t.rows, history := t.history)
            && t.versions == (if r.Return? then s.versions[v.versionId := v] else s.versions)
            && t.history == s.history + (if r.Return? then [Created(v.versionId)] else [])
  {
    hide RTLVersion.Valid, EncodeVersion;
  }

  /** What a creation leaves, also when it raises: the parent may be withdrawn although the child is refused. */
  lemma CreationLeaves(env: Env, s: State, op: Op)
    requires op.Create? && Possible(s, op) && Keyed(s.versions)
    ensures var (t, r) := Step(env, s, op);
            var child := RTLVersion("rtl-" + op.uuid, op.specId, env.shaOfText(op.source), op.generator, NotRun, None,
                                    NotRun, None, op.parent, op.sourceRef);
            && t == s.(versions := t.versions, rows := t.rows, history := t.history)
            && t.versions == (if r.Return? then AfterEdit(s, op)["rtl-" + op.uuid := child] else AfterEdit(s, op))
            && t.history == s.history + (if EditsParent(s, op) then [Edited(op.parent.value)] else [])
                            + (if r.Return? then [Created("rtl-" + op.uuid)] else [])
  {
    hide RTLVersion.Valid, EncodeVersion, AddVersion;
    var v := RTLVersion("rtl-" + op.uuid, op.specId, env.shaOfText(op.source), op.generator, NotRun, None, NotRun, None,
                        op.parent, op.sourceRef);
    AddingLeaves(s, v);
    if EditsParent(s, op) {
      var withdrawn := Withdrawn(s.versions[op.parent.value]);
      AddingLeaves(Log(PutVersion(s, withdrawn), Edited(withdrawn.versionId)), v);
    }
  }

  /** A creation that returns hands back the version it stored. */
  lemma CreationReplies(env: Env, s: State, uuid: string, specId: string, source: string, generator: string,
                        parent: Option<string>, sourceRef: Option<string>)
    requires Keyed(s.versions)
    ensures var (t, r) := CreateVersion(env, s, uuid, specId, source, generator, parent, sourceRef);
            r.Return? ==> "rtl-" + uuid in t.versions && r.value == t.versions["rtl-" + uuid]
  {
    hide RTLVersion.Valid, EncodeVersion;
  }

  ghost predicate AllInOrder(s: State) {
    Keyed(s.versions) && forall id | id in s.versions :: InOrder(s.versions[id])
  }

  lemma OriginIsInOrder(v: RTLVersion, w: RTLVersion)
    requires SameOrigin(v, w)
    ensures InOrder(v) <==> InOrder(w)
  {
    hide IsBoundedId, IsDigest;
  }

  lemma ChildIsInOrder(env: Env, op: Op)
    requires op.Create? && ChildInOrder(op) && env.Lawful()
    ensures InOrder(RTLVersion("rtl-" + op.uuid, op.specId, env.shaOfText(op.source), op.generator, NotRun, None,
                               NotRun, None, op.parent, op.sourceRef))
  {
    hide IsBoundedId, IsDigest;
    assert IsDigest(env.shaOfText(op.source));
  }

  lemma StepKeepsInOrder(env: Env, s: State, op: Op)
    requires AllInOrder(s) && Possible(s, op) && env.Lawful()
    ensures AllInOrder(Step(env, s, op).0)
  {
    hide Step, Possible, InOrder, SameOrigin, ChildInOrder, MayCreate;
    StepMoves(env, s, op);
    var t := Step(env, s, op).0;
    forall id | id in s.versions ensures InOrder(t.versions[id]) {
      OriginIsInOrder(s.versions[id], t.versions[id]);
    }
    if op.Create? {
      CreationReturns(env, s, op);
      CreationLeaves(env, s, op);
      if Step(env, s, op).1.Return? { ChildIsInOrder(env, op); }
    } else if op.Gds? {
      OthersKeepVersions(env, s, op);
    } else {
      QuietCalls(env, s, op);
    }
  }

  lemma {:induction false} RunKeepsInOrder(env: Env, s: State, ops: seq<Op>)
    requires AllInOrder(s) && PossibleRun(env, s, ops) && env.Lawful()
    ensures AllInOrder(Run(env, s, ops))
    decreases |ops|
  {
    hide AllInOrder, Step, Possible;
    if ops != [] {
      StepKeepsInOrder(env, s, ops[0]);
      RunKeepsInOrder(env, Step(env, s, ops[0]).0, ops[1..]);
    }
  }

  /** Main result: in every reachable state a new version is stored exactly when its session is stored and frozen, the
      source holds more than blanks, its parent, if it names one, is stored under the same spec, and its members have
      the form of a record. It is then stored as exactly that record. */
  lemma CreatesExactly(env: Env, ops: seq<Op>, op: Op)
    requires PossibleRun(env, EMPTY, ops) && env.Lawful() && op.Create? && Possible(Run(env, EMPTY, ops), op)
    ensures var s := Run(env, EMPTY, ops); var (t, r) := Step(env, s, op);
            && (r.Return? <==>
                  && MayCreate(s, op) && ChildInOrder(op)
                  && (op.parent.Some? ==> op.parent.value in s.versions
                                          && s.versions[op.parent.value].specId == op.specId))
            && (r.Return? ==>
                  && t.versions.Keys == s.versions.Keys + {"rtl-" + op.uuid}
                  && t.versions["rtl-" + op.uuid]
                     == RTLVersion("rtl-" + op.uuid, op.specId, env.shaOfText(op.source), op.generator, NotRun, None,
                                   NotRun, None, op.parent, op.sourceRef)
                  && (forall id | id in s.versions :: t.versions[id] ==
                        if op.parent != Some(id) then s.versions[id]
                        else s.versions[id].(verificationStatus := Invalidated, verificationRunId := None,
                                             simulationStatus := Invalidated, simulationRunId := None)))
  {
    hide Step, Possible, Run, PossibleRun, InOrder, ChildInOrder;
    RunKeepsInOrder(env, EMPTY, ops);
    CreationReturns(env, Run(env, EMPTY, ops), op);
    CreationLeaves(env, Run(env, EMPTY, ops), op);
    FreshIsNew(Run(env, EMPTY, ops), op);
  }

  lemma FreshIsNew(s: State, op: Op)
    requires op.Create? && Possible(s, op)
    ensures "rtl-" + op.uuid !in s.versions
  {
  }

  // ----- specifications -----

  /** A period the recipe can use: a positive number under its name. */
  predicate StatesPeriod(spec: SpecIR) {
    && "clock_period_ns" in spec.constraints
    && match spec.constraints["clock_period_ns"]
       case VInt(i) => i > 0
       case VFloat(num, den) => num > 0 && den > 0
       case _ => false
  }

  /** What an assessment is told is consistent, and the record it makes has its form. */
  predicate MayAssess(op: Op)
    requires op.Assess?
  {
    && (op.spec.Some? ==> && op.questions == [] && (op.reason == None || op.reason == Some(""))
                          && op.spec.value.Valid())
    && IsBoundedId("spec-" + op.uuid) && IsBoundedId(op.owner)
    && forall i | 0 <= i < |op.questions| :: NonBlank(op.questions[i])
  }

  /** The record an assessment makes. */
  function Assessment(op: Op): M1Session
    requires op.Assess?
  {
    var blank := M1Session("spec-" + op.uuid, op.owner, NeedsClarification, op.spec, op.questions, op.reason, None);
    if op.reason.Some? && op.reason.value != "" then blank.(state := UnsupportedScope)
    else if op.questions != [] then blank
    else if op.spec == None then
      blank.(clarificationQuestions :=
        ["Provide an executable clock, reset, port, and acceptance definition."])
    else if op.spec.value.clock.Some? && !StatesPeriod(op.spec.value) then
      blank.(clarificationQuestions := ["What clock period in nanoseconds should the frozen recipe use?"])
    else blank.(state := Specified)
  }

  lemma QuestionsAreText()
    ensures NonBlank("Provide an executable clock, reset, port, and acceptance definition.")
    ensures NonBlank("What clock period in nanoseconds should the frozen recipe use?")
  {
    var question := "Provide an executable clock, reset, port, and acceptance definition.";
    assert !IsSpace(question[|question| - 1]);
    var period := "What clock period in nanoseconds should the frozen recipe use?";
    assert !IsSpace(period[|period| - 1]);
  }

  /** An assessment stores and returns the record it makes; one that JSON refuses stays in the dictionary though the
      call raises. */
  lemma AssessmentsDo(s: State, op: Op)
    requires op.Assess?
    ensures var (t, r) := AssessSpec(s, op.uuid, op.owner, op.spec, op.questions, op.reason);
            && t == s.(sessions := t.sessions, rows := t.rows)
            && t.sessions == (if MayAssess(op) then s.sessions["spec-" + op.uuid := Assessment(op)] else s.sessions)
            && r == if !MayAssess(op) then Raise(ValueError)
                    else if IsWritable(Assessment(op)) then Return(Assessment(op)) else Raise(TypeError)
  {
    hide SpecIR.Valid, IsBoundedId, IsWritable, EncodeSession, NonBlank;
    QuestionsAreText();
  }

  /** A session that can be frozen. */
  predicate MayFreeze(s: State, specId: string) {
    && specId in s.sessions && s.sessions[specId].state == Specified && s.sessions[specId].spec.Some?
    && s.sessions[specId].Valid()
  }

  /** A freeze sets the state and the fingerprint of one session, and returns it. */
  lemma FreezesDo(env: Env, s: State, specId: string)
    requires env.Lawful() && (specId in s.sessions ==> s.sessions[specId].specId == specId)
    ensures var (t, r) := FreezeSpec(env, s, specId);
            && (r.Return? <==> MayFreeze(s, specId) && IsWritable(s.sessions[specId]))
            && (r == Raise(KeyError) <==> specId !in s.sessions)
            && (r.Raise? ==> t == s)
            && (r.Return? ==>
                  var session := s.sessions[specId];
                  && r.value == session.(state := Frozen,
                                         frozenFingerprint := Some(Fingerprint(env, session.spec.value)))
                  && t == s.(sessions := s.sessions[specId := r.value], rows := t.rows))
  {
    hide SpecIR.Valid, IsBoundedId, IsWritable, EncodeSession, IsDigest, EncodeSpec;
  }

  /** A package is stored once for a frozen spec. */
  lemma RegistrationsDo(s: State, specId: string, package: VerificationPackage)
    ensures var (t, r) := RegisterPackage(s, specId, package);
            && (r.Return? <==> && specId in s.sessions && s.sessions[specId].state == Frozen
                               && package.specId == specId && package.Valid() && specId !in s.packages)
            && (r == Raise(KeyError) <==> specId !in s.sessions)
            && (r.Raise? ==> t == s)
            && (r.Return? ==> && r.value == package
                              && t == s.(packages := s.packages[specId := package], rows := t.rows))
  {
    hide VerificationPackage.Valid, EncodePackage;
  }

  // ----- results -----

  /** A direct recording sets one check of one version, and returns it. */
  lemma RecordedVerificationsDo(s: State, id: string, status: CheckStatus, runId: string)
    requires Keyed(s.versions)
    ensures var (t, r) := RecordVerification(s, id, status, runId);
            && (r.Return? <==> && id in s.versions && s.versions[id].verificationStatus != Invalidated
                               && (status == Passed || status == Failed)
                               && IsBoundedId(runId) && s.versions[id].(verificationRunId := None).Valid())
            && (r == Raise(KeyError) <==> id !in s.versions)
            && (r.Raise? ==> t == s)
            && (r.Return? ==>
                  && r.value == s.versions[id].(verificationStatus := status, verificationRunId := Some(runId))
                  && t == s.(versions := s.versions[id := r.value], rows := t.rows))
  {
    hide IsBoundedId, IsDigest, EncodeVersion;
  }

  /** ... and a simulation only behind a passed verification. */
  lemma RecordedSimulationsDo(s: State, id: string, status: CheckStatus, runId: string)
    requires Keyed(s.versions)
    ensures var (t, r) := RecordSimulation(s, id, status, runId);
            && (r.Return? <==> && id in s.versions && s.versions[id].verificationStatus == Passed
                               && (status == Passed || status == Failed)
                               && IsBoundedId(runId) && s.versions[id].(simulationRunId := None).Valid())
            && (r == Raise(KeyError) <==> id !in s.versions)
            && (r.Raise? ==> t == s)
            && (r.Return? ==>
                  && r.value == s.versions[id].(simulationStatus := status, simulationRunId := Some(runId))
                  && t == s.(versions := s.versions[id := r.value], rows := t.rows))
  {
    hide IsBoundedId, IsDigest, EncodeVersion;
  }

  /** A version after its run was seen to end: `good` says how. */
  function Seen(v: RTLVersion, runId: string, good: bool): RTLVersion {
    var result := if good then Passed else Failed;
    v.(verificationStatus := if v.verificationRunId == Some(runId) && v.verificationStatus == Running then result
                             else v.verificationStatus,
       simulationStatus := if v.simulationRunId == Some(runId) && v.simulationStatus == Running then result
                           else v.simulationStatus)
  }

  /** A version on which an observation can be recorded: it has no running simulation under the run unless its
      verification passed or passes now; a record to change is in order. */
  predicate Recordable(v: RTLVersion, runId: string, good: bool) {
    && (Seen(v, runId, good) == v || v.Valid())
    && (v.simulationRunId == Some(runId) && v.simulationStatus == Running ==>
          v.verificationStatus == Passed || Seen(v, runId, good).verificationStatus == Passed)
  }

  lemma SeenIsObserved(v: RTLVersion, runId: string, status: string)
    ensures Observed(v, runId, status) == Seen(v, runId, status == "succeeded")
    ensures Blocks(v, runId, status) <==> !Recordable(v, runId, status == "succeeded")
  {
    hide IsBoundedId, IsDigest;
    var w := Seen(v, runId, status == "succeeded");
    assert w.Valid() == v.Valid() == WithVerification(v, runId, status).Valid();
  }

  /** Main result: which statuses end which checks how. Any other status does nothing. */
  lemma ObservationsDo(s: State, runId: string, status: string, order: seq<string>)
    requires Keyed(s.versions) && Enumerates(order, s.versions)
    ensures var (t, r) := ObserveRun(s, runId, status, order); var good := status == "succeeded";
            if status in {"succeeded", "failed", "cancelled", "timed_out"} then
              && t == s.(versions := t.versions, rows := t.rows, history := s.history + [Observation(runId, status)])
              && (r.Return? <==> forall id | id in s.versions :: Recordable(s.versions[id], runId, good))
              && (r.Return? ==> t.versions == map id | id in s.versions :: Seen(s.versions[id], runId, good))
            else (t, r) == (s, Return(()))
  {
    hide ObserveAll, Blocks, Recordable, Observed, Seen, Enumerates;
    if status in {"succeeded", "failed", "cancelled", "timed_out"} {
      ObserveRunIsPointwise(s, runId, status, order);
      hide ObserveRun;
      forall id | id in s.versions
        ensures Blocks(s.versions[id], runId, status) <==> !Recordable(s.versions[id], runId, status == "succeeded")
        ensures Observed(s.versions[id], runId, status) == Seen(s.versions[id], runId, status == "succeeded")
      {
        SeenIsObserved(s.versions[id], runId, status);
      }
    }
  }

  // ----- submissions -----

  /** The input staged for a version: what its source reference names. */
  predicate Stages(v: RTLVersion, inputId: string) {
    && v.sourceRef.Some? && v.sourceRef.value != ""
    && v.sourceRef.value == (if "input:" <= v.sourceRef.value then "input:" + inputId else inputId)
  }

  /** The version has its source staged, under a frozen spec with a package. */
  predicate Prepared(s: State, id: string) {
    && id in s.versions && s.versions[id].sourceRef.Some? && s.versions[id].sourceRef.value != ""
    && s.versions[id].specId in s.sessions && s.versions[id].specId in s.packages
    && s.sessions[s.versions[id].specId].state == Frozen && s.sessions[s.versions[id].specId].spec.Some?
  }

  predicate Answered(v2: V2Reply) {
    v2.Accepted? && v2.runId != ""
  }

  /** A submitted verification, its task, and the version it sets running unless the record is refused. */
  lemma VerificationsDo(s: State, id: string, admitted: bool, v2: V2Reply)
    requires Keyed(s.versions)
    ensures var (t, r) := SubmitVerification(s, id, admitted, v2);
            var submitted := Prepared(s, id) && admitted && Answered(v2);
            && (r == Raise(KeyError) <==> id !in s.versions || s.versions[id].specId !in s.sessions)
            && (r.Raise? ==> r.error == KeyError || r.error == ValueError)
            && (!submitted ==> r.Raise? && t == s)
            && (submitted ==>
                  var v := s.versions[id]; var package := s.packages[v.specId];
                  && (r.Return? <==> IsBoundedId(v2.runId) && v.(verificationRunId := None).Valid())
                  && (r.Return? ==> r.value == v2.runId)
                  && t == s.(versions := t.versions, rows := t.rows, history := t.history)
                  && t.versions == (if r.Return? then
                       s.versions[id := v.(verificationStatus := Running, verificationRunId := Some(v2.runId))]
                     else s.versions)
                  && exists input | Stages(v, input) ::
                       t.history == s.history +
                         [Submission(VerifyTask("m1-verify-" + id, id, input, v.specId,
                                                s.sessions[v.specId].spec.value.top, package.verificationId,
                                                package.compileChecks), v2.runId)])
  {
    hide IsBoundedId, IsDigest, EncodeVersion;
    if Prepared(s, id) { InputIsStaged(s.versions[id]); }
  }

  lemma InputIsStaged(v: RTLVersion)
    requires Given(v.sourceRef)
    ensures Stages(v, RemovePrefix(v.sourceRef.value, "input:"))
  {
  }

  /** The package names one oracle, an artifact or a staged source. */
  predicate NamesOracle(package: VerificationPackage, oracle: OracleStage) {
    && |package.simulationOracleRefs| == 1
    && oracle.id != ""
    && package.simulationOracleRefs[0] == (if oracle.StageArtifact? then "artifact:" else "source:") + oracle.id
  }

  /** The staged oracle is the one the package names, and there is none exactly when it names none. */
  lemma OracleIsExact(package: VerificationPackage, oracle: OracleStage)
    ensures OracleOf(package) == Some(oracle) <==> NamesOracle(package, oracle)
  {
    if |package.simulationOracleRefs| == 1 {
      var ref := package.simulationOracleRefs[0];
      assert ("artifact:" + oracle.id)[9..] == oracle.id && ("source:" + oracle.id)[7..] == oracle.id;
      assert "artifact:" <= ref ==> ref == "artifact:" + ref[9..] && ref[0] == 'a';
      assert "source:" <= ref ==> ref == "source:" + ref[7..] && ref[0] == 's';
    }
  }

  /** A submitted simulation, its task, and the version it sets running even when the record is refused. */
  lemma SimulationsDo(s: State, id: string, admitted: bool, v2: V2Reply)
    requires Keyed(s.versions)
    ensures var (t, r) := SubmitSimulation(s, id, admitted, v2);
            var submitted := && Prepared(s, id) && admitted && Answered(v2)
                             && s.versions[id].verificationStatus == Passed
                             && (exists oracle :: NamesOracle(s.packages[s.versions[id].specId], oracle))
                             && Given(s.packages[s.versions[id].specId].simulationTop);
            && (r == Raise(KeyError) <==> id !in s.versions || s.versions[id].specId !in s.sessions)
            && (r.Raise? ==> r.error == KeyError || r.error == ValueError)
            && (!submitted ==> r.Raise? && t == s)
            && (submitted ==>
                  var v := s.versions[id]; var package := s.packages[v.specId];
                  && (r.Return? <==> IsBoundedId(v2.runId) && v.(simulationRunId := None).Valid())
                  && (r.Return? ==> r.value == v2.runId)
                  && t == s.(versions := t.versions, rows := t.rows, history := t.history)
                  && t.versions == s.versions[id := v.(simulationStatus := Running, simulationRunId := Some(v2.runId))]
                  && exists input, oracle | Stages(v, input) && NamesOracle(package, oracle) ::
                       t.history == s.history +
                         [Submission(SimulateTask("m1-sim-" + id, id, input, v.specId,
                                                  s.sessions[v.specId].spec.value.top, package.verificationId,
                                                  package.simulationTop.value, oracle), v2.runId)])
  {
    hide IsBoundedId, IsDigest, EncodeVersion, OracleOf, NamesOracle;
    if Prepared(s, id) {
      InputIsStaged(s.versions[id]);
      var package := s.packages[s.versions[id].specId];
      forall oracle ensures OracleOf(package) == Some(oracle) <==> NamesOracle(package, oracle) {
        OracleIsExact(package, oracle);
      }
    }
  }

  /** A GDS task may be built: both checks passed, for the one PDK there is. */
  predicate MayBuildGds(s: State, id: string, pdk: string, admitted: bool) {
    && Prepared(s, id) && admitted && pdk == "nangate45"
    && s.versions[id].verificationStatus == Passed && s.versions[id].simulationStatus == Passed
  }

  /** A clocked spec without a period: reading the period fails. */
  predicate LacksPeriod(spec: SpecIR) {
    spec.clock.Some? && "clock_period_ns" !in spec.constraints
  }

  /** A submitted GDS task, and the owner stored for its run. */
  lemma GdsSubmissionsDo(env: Env, s: State, id: string, pdk: string, admitted: bool, v2: V2Reply)
    requires Keyed(s.versions)
    ensures var (t, r) := SubmitGds(env, s, id, pdk, admitted, v2);
            && (r.Return? <==> && MayBuildGds(s, id, pdk, admitted) && Answered(v2)
                               && !LacksPeriod(s.sessions[s.versions[id].specId].spec.value))
            && (r == Raise(KeyError) <==>
                  || id !in s.versions
                  || (s.versions[id].verificationStatus == Passed && Given(s.versions[id].sourceRef)
                      && pdk == "nangate45" && s.versions[id].specId !in s.sessions)
                  || (MayBuildGds(s, id, pdk, admitted) && LacksPeriod(s.sessions[s.versions[id].specId].spec.value)))
            && (r.Raise? ==> t == s && (r.error == KeyError || r.error == ValueError))
            && (r.Return? ==>
                  var v := s.versions[id]; var session := s.sessions[v.specId]; var spec := session.spec.value;
                  && r.value == v2.runId
                  && t == s.(rows := s.rows.(owners := s.rows.owners[v2.runId := session.ownerId]),
                             history := t.history)
                  && exists input | Stages(v, input) ::
                       t.history == s.history +
                         [Submission(GdsTask("m1-gds-" + id + "-" + pdk, id, input, spec.top,
                                             s.packages[v.specId].verificationId, Fingerprint(env, spec), v.rtlSha256,
                                             v.verificationRunId, pdk, spec.designId, spec.clock,
                                             if spec.clock.Some? then spec.constraints["clock_period_ns"] else VNull),
                                     v2.runId)])
  {
    hide Fingerprint;
    if Prepared(s, id) { InputIsStaged(s.versions[id]); }
  }

  // ----- evidence and requests -----

  /** Evidence of any kind; a GDS success asks for more. */
  lemma EvidenceRecordingsDo(env: Env, s: State, e: EvidenceRef)
    ensures var (t, r) := RecordEvidence(env, s, e);
            && (r.Return? <==>
                  && e.Valid(env) && e.specId in s.sessions && e.candidateId in s.versions
                  && s.sessions[e.specId].ownerId == e.ownerId && s.versions[e.candidateId].specId == e.specId
                  && e.evidenceId !in s.evidence
                  && (e.evidenceKind == "rtl_to_gds" && e.status == "succeeded" ==>
                        && (exists i | 0 <= i < |e.artifactIds| :: "artifact:gds" <= e.artifactIds[i])
                        && s.versions[e.candidateId].verificationStatus == Passed
                        && s.versions[e.candidateId].simulationStatus == Passed))
            && (r == Raise(KeyError) <==> e.Valid(env) && (e.specId !in s.sessions || e.candidateId !in s.versions))
            && (r.Raise? ==> t == s)
            && (r.Return? ==> r.value == e && t == s.(evidence := s.evidence[e.evidenceId := e], rows := t.rows))
  {
    hide EvidenceRef.Valid, EncodeEvidence;
  }

  /** A request by the run's owner observes the run as the execution service reports it and, when a GDS run succeeded,
      records the verdict of the version and PDK its task id was made of; anyone else changes nothing. */
  lemma RequestsDo(env: Env, s: State, owner: string, runId: string, run: RunRecord, now: string, order: seq<string>,
                   evidenceOrder: seq<string>, id: string, pdk: string)
    requires Enumerates(order, s.versions) && Enumerates(evidenceOrder, s.evidence) && Free(pdk, '-')
    ensures var (t, r) := GetRun(env, s, owner, runId, run, now, order, evidenceOrder);
            var allowed := AssertRunOwner(s, runId, owner, order, evidenceOrder);
            var (seen, observed) := ObserveRun(s, runId, run.status, order);
            if runId == "" || '/' in runId then (t, r) == (s, Raise(ValueError))
            else if allowed.Raise? then (t, r) == (s, Raise(allowed.error))
            else if observed.Raise? then (t, r) == (seen, Raise(observed.error))
            else if run.status == "succeeded" && run.taskId == "m1-gds-" + id + "-" + pdk then
              var (judged, verdict) := RecordGdsEvidence(env, seen, id, runId, run.artifacts, pdk, run.metrics, now);
              (t, r) == (judged, if verdict.Raise? then Raise(verdict.error) else Return(Some(verdict.value)))
            else run.status != "succeeded" || !("m1-gds-" <= run.taskId) ==> (t, r) == (seen, Return(None))
  {
    hide AssertRunOwner, ObserveRun, RecordGdsEvidence, Enumerates, TaskVersion, TaskPdk;
    if run.taskId == "m1-gds-" + id + "-" + pdk {
      GdsTaskIdParses(id, pdk);
      assert TaskVersion(run.taskId) == id && TaskPdk(run.taskId) == pdk && GDS_PREFIX <= run.taskId;
    }
  }

  // ----- fingerprints in a history -----

  /** Every frozen session holds a valid spec. */
  predicate FrozenAreValid(s: State) {
    forall k | k in s.sessions && s.sessions[k].state == Frozen ::
      s.sessions[k].spec.Some? && s.sessions[k].spec.value.Valid()
  }

  lemma FreezingKeepsValid(env: Env, s: State, specId: string)
    requires FrozenAreValid(s)
    ensures FrozenAreValid(FreezeSpec(env, s, specId).0)
  {
    hide SpecIR.Valid, IsWritable, EncodeSession, Fingerprint;
  }

  lemma StepKeepsFrozenValid(env: Env, s: State, op: Op)
    requires FrozenAreValid(s) && Keyed(s.versions) && Possible(s, op)
    ensures FrozenAreValid(Step(env, s, op).0)
  {
    hide SpecIR.Valid, Step, Possible;
    if op.Assess? {
      SpecificationSteps(env, s, op);
      AssessmentsDo(s, op);
      hide MayAssess, StatesPeriod, IsWritable;
    } else if op.Freeze? {
      SpecificationSteps(env, s, op);
      FreezingKeepsValid(env, s, op.specId);
    } else {
      OtherCallsKeepSessions(env, s, op);
    }
  }

  lemma SpecificationSteps(env: Env, s: State, op: Op)
    requires Possible(s, op)
    ensures op.Assess? ==>
              Step(env, s, op).0 == AssessSpec(s, op.uuid, op.owner, op.spec, op.questions, op.reason).0
    ensures op.Freeze? ==> Step(env, s, op).0 == FreezeSpec(env, s, op.specId).0
  {
    hide AssessSpec, FreezeSpec;
  }

  lemma {:induction false} RunKeepsFrozenValid(env: Env, s: State, ops: seq<Op>)
    requires FrozenAreValid(s) && Keyed(s.versions) && PossibleRun(env, s, ops)
    ensures FrozenAreValid(Run(env, s, ops))
    decreases |ops|
  {
    hide FrozenAreValid, Step, Possible;
    if ops != [] {
      StepMoves(env, s, ops[0]);
      StepKeepsFrozenValid(env, s, ops[0]);
      RunKeepsFrozenValid(env, Step(env, s, ops[0]).0, ops[1..]);
    }
  }

  /** The spec frozen for the version a task is about. */
  predicate IsFrozenSpecOf(s: State, versionId: string, spec: SpecIR) {
    && versionId in s.versions && s.versions[versionId].specId in s.sessions
    && s.sessions[s.versions[versionId].specId].state == Frozen
    && s.sessions[s.versions[versionId].specId].spec == Some(spec)
  }

  predicate GdsTaskAt(h: seq<Event>, n: nat) {
    n < |h| && h[n].Submission? && h[n].task.GdsTask?
  }

  lemma TaskNamesItsSpec(env: Env, ops: seq<Op>, n: nat)
    returns (spec: SpecIR)
    requires PossibleRun(env, EMPTY, ops) && GdsTaskAt(Run(env, EMPTY, ops).history, n)
    ensures var s := Run(env, EMPTY, ops);
            && IsFrozenSpecOf(s, s.history[n].task.versionId, spec) && spec.Valid()
            && s.history[n].task.fingerprint == Fingerprint(env, spec)
  {
    hide Step, Possible, Run, PossibleRun, SpecIR.Valid, Fingerprint;
    GdsTasksAreFaithful(env, ops, n);
    EmptyIsPlaced(env);
    RunPlaced(env, EMPTY, ops);
    RunKeepsFrozenValid(env, EMPTY, ops);
    var s := Run(env, EMPTY, ops);
    PlacedParts(env, s);
    var session := s.sessions[s.versions[s.history[n].task.versionId].specId];
    assert SessionOk(env, session);
    spec := session.spec.value;
  }

  /** Main result: in every history, with a hash without collisions, two GDS tasks carry the same fingerprint exactly
      when their versions were made for equal frozen specs, up to what conversion rewrites in the constraints. */
  lemma EqualFingerprintsMeanEqualSpecs(env: Env, ops: seq<Op>, m: nat, n: nat, a: SpecIR, b: SpecIR)
    requires PossibleRun(env, EMPTY, ops) && NoCollisions(env)
    requires GdsTaskAt(Run(env, EMPTY, ops).history, m) && GdsTaskAt(Run(env, EMPTY, ops).history, n)
    requires var s := Run(env, EMPTY, ops);
             IsFrozenSpecOf(s, s.history[m].task.versionId, a) && IsFrozenSpecOf(s, s.history[n].task.versionId, b)
    ensures var h := Run(env, EMPTY, ops).history;
            (h[m].task.fingerprint == h[n].task.fingerprint
             <==> a.(constraints := PrimitiveMap(a.constraints)) == b.(constraints := PrimitiveMap(b.constraints)))
    ensures var h := Run(env, EMPTY, ops).history;
            PlainMap(a.constraints) && PlainMap(b.constraints) ==>
              (h[m].task.fingerprint == h[n].task.fingerprint <==> a == b)
  {
    hide Step, Possible, Run, PossibleRun, SpecIR.Valid, Fingerprint, NoCollisions, PlainMap;
    var c := TaskNamesItsSpec(env, ops, m);
    var d := TaskNamesItsSpec(env, ops, n);
    FingerprintsTellTheSpec(env, a, b);
  }
}
