/** The store always holds what the dictionaries hold, except after the calls named by `Diverges`;
    a service reopened on an agreeing store is the service that was running. */
module M1WriteThrough {
  import opened Wrappers
  import opened Values
  import opened Contracts
  import opened M1Model
  import opened Text

  /** The rows of one table are the encodings of the dictionary's records, and decoding them gives the records. */
  ghost predicate TableAgrees<T(!new)>(rows: map<string, Value>, m: map<string, T>, encode: T -> Value,
                                       decode: Value -> Option<T>, key: T -> string)
  {
    && rows.Keys == m.Keys
    && forall k | k in m :: rows[k] == encode(m[k]) && decode(rows[k]) == Some(m[k]) && key(m[k]) == k
  }

  ghost predicate Agrees(env: Env, s: State) {
    && TableAgrees(s.rows.sessions, s.sessions, EncodeSession, DecodeSession, (x: M1Session) => x.specId)
    && TableAgrees(s.rows.versions, s.versions, EncodeVersion, DecodeVersion, (x: RTLVersion) => x.versionId)
    && TableAgrees(s.rows.packages, s.packages, EncodePackage, DecodePackage, (x: VerificationPackage) => x.specId)
    && TableAgrees(s.rows.evidence, s.evidence, EncodeEvidence, v => DecodeEvidence(env, v),
                   (x: EvidenceRef) => x.evidenceId)
    && TableAgrees(s.rows.outcomes, s.outcomes, EncodeOutcome, DecodeOutcome, (x: M1RunOutcome) => x.runId)
  }

  /** What `assess_spec` lets through to its dictionary with a spec. */
  predicate AssessesSpec(uuid: string, owner: string, spec: SpecIR, questions: seq<string>, reason: Option<string>) {
    spec.Valid() && questions == [] && !Given(reason) && IsBoundedId("spec-" + uuid) && IsBoundedId(owner)
  }

  /** The calls that leave store and dictionaries apart: a simulation accepted under a run id that the record
      refuses, and an acceptable specification whose constraints are not JSON data. */
  predicate Diverges(s: State, op: Op) {
    match op
    case Simulate(versionId, admitted, v2) =>
      BuildSimulation(s, versionId, admitted).Return? && RunOf(v2).Some? && !IsBoundedId(v2.runId)
    case Assess(uuid, owner, spec, questions, reason) =>
      spec.Some? && AssessesSpec(uuid, owner, spec.value, questions, reason) && !JsonMap(spec.value.constraints)
    case _ => false
  }

  /** What a constructor reading a table may end up with: every row decoded and filed under its own id. */
  ghost predicate LoadedFrom<T(!new)>(m: map<string, T>, rows: map<string, Value>, decode: Value -> Option<T>,
                                      key: T -> string)
  {
    && (forall k | k in rows :: decode(rows[k]).Some? && key(decode(rows[k]).value) in m)
    && (forall x | x in m :: exists k :: k in rows && decode(rows[k]) == Some(m[x]) && key(m[x]) == x)
  }

  /** Every dictionary of `s` is loaded from its rows: what the constructor establishes. */
  ghost predicate LoadedState(env: Env, s: State) {
    && LoadedFrom(s.sessions, s.rows.sessions, DecodeSession, (x: M1Session) => x.specId)
    && LoadedFrom(s.versions, s.rows.versions, DecodeVersion, (x: RTLVersion) => x.versionId)
    && LoadedFrom(s.packages, s.rows.packages, DecodePackage, (x: VerificationPackage) => x.specId)
    && LoadedFrom(s.evidence, s.rows.evidence, v => DecodeEvidence(env, v), (x: EvidenceRef) => x.evidenceId)
    && LoadedFrom(s.outcomes, s.rows.outcomes, DecodeOutcome, (x: M1RunOutcome) => x.runId)
  }

  /** Reading back an agreeing table gives the dictionary and nothing else. */
  lemma LoadingGivesTheDictionary<T(!new)>(m: map<string, T>, loaded: map<string, T>, rows: map<string, Value>,
                                           encode: T -> Value, decode: Value -> Option<T>, key: T -> string)
    requires TableAgrees(rows, m, encode, decode, key)
    ensures LoadedFrom(loaded, rows, decode, key) <==> loaded == m
  {
    if LoadedFrom(loaded, rows, decode, key) {
      forall x | x in loaded ensures x in m && loaded[x] == m[x] {
        var k :| k in rows && decode(rows[k]) == Some(loaded[x]) && key(loaded[x]) == x;
      }
      assert loaded.Keys == m.Keys by {
        forall k | k in m ensures k in loaded { assert k in rows; }
      }
    }
    if loaded == m {
      forall x | x in m ensures exists k :: k in rows && decode(rows[k]) == Some(m[x]) && key(m[x]) == x {
        assert x in rows;
      }
    }
  }

  lemma DecodedVersionIsValid(v: Value)
    ensures DecodeVersion(v).Some? ==> DecodeVersion(v).value.Valid()
  {
  }

  lemma DecodedSessionIsValid(v: Value)
    ensures DecodeSession(v).Some? ==> DecodeSession(v).value.Valid()
  {
  }

  // ----- each way of writing a record -----

  /** Writing a record that its own decoder reads back keeps a table agreeing. */
  lemma TableGrows<T(!new)>(rows: map<string, Value>, m: map<string, T>, encode: T -> Value,
                            decode: Value -> Option<T>, key: T -> string, x: T)
    requires TableAgrees(rows, m, encode, decode, key) && decode(encode(x)) == Some(x)
    ensures TableAgrees(rows[key(x) := encode(x)], m[key(x) := x], encode, decode, key)
  {
  }

  lemma PutVersionAgrees(env: Env, s: State, v: RTLVersion)
    requires Agrees(env, s) && v.Valid()
    ensures Agrees(env, PutVersion(s, v))
  {
    VersionRoundTrip(v);
    hide EncodeVersion, DecodeVersion, RTLVersion.Valid, TableAgrees;
    TableGrows(s.rows.versions, s.versions, EncodeVersion, DecodeVersion, (x: RTLVersion) => x.versionId, v);
  }

  lemma KeepVersionDiverges(env: Env, s: State, v: RTLVersion)
    requires Agrees(env, s) && !v.Valid()
    ensures !Agrees(env, KeepVersion(s, v))
  {
    var s1 := KeepVersion(s, v);
    if v.versionId in s.rows.versions {
      DecodedVersionIsValid(s.rows.versions[v.versionId]);
    }
    assert s1.versions[v.versionId] == v && s1.rows.versions == s.rows.versions;
  }

  lemma PutSessionAgrees(env: Env, s: State, x: M1Session)
    requires Agrees(env, s) && x.Valid()
    ensures Agrees(env, PutSession(s, x)) <==> HasPlainSpec(x)
  {
    hide EncodeSession, DecodeSession, M1Session.Valid, HasPlainSpec;
    SessionRoundTrip(env, x);
    var s1 := PutSession(s, x);
    assert s1.sessions[x.specId] == x && s1.rows.sessions[x.specId] == EncodeSession(x);
  }

  lemma KeepSessionDiverges(env: Env, s: State, x: M1Session)
    requires Agrees(env, s) && x.specId !in s.sessions
    ensures !Agrees(env, KeepSession(s, x))
  {
    assert x.specId !in s.rows.sessions && x.specId in KeepSession(s, x).sessions;
  }

  lemma PutPackageAgrees(env: Env, s: State, x: VerificationPackage)
    requires Agrees(env, s) && x.Valid()
    ensures Agrees(env, PutPackage(s, x))
  {
    PackageRoundTrip(x);
    hide EncodePackage, DecodePackage, VerificationPackage.Valid, TableAgrees;
    TableGrows(s.rows.packages, s.packages, EncodePackage, DecodePackage, (x: VerificationPackage) => x.specId, x);
  }

  lemma PutEvidenceAgrees(env: Env, s: State, x: EvidenceRef)
    requires Agrees(env, s) && x.Valid(env)
    ensures Agrees(env, PutEvidence(s, x))
  {
    EvidenceRoundTrip(env, x);
    hide EncodeEvidence, DecodeEvidence, EvidenceRef.Valid, TableAgrees;
    TableGrows(s.rows.evidence, s.evidence, EncodeEvidence, v => DecodeEvidence(env, v),
               (x: EvidenceRef) => x.evidenceId, x);
  }

  lemma PutOutcomeAgrees(env: Env, s: State, x: M1RunOutcome)
    requires Agrees(env, s) && x.Valid()
    ensures Agrees(env, PutOutcome(s, x))
  {
    OutcomeRoundTrip(x);
    hide EncodeOutcome, DecodeOutcome, M1RunOutcome.Valid, TableAgrees;
    TableGrows(s.rows.outcomes, s.outcomes, EncodeOutcome, DecodeOutcome, (x: M1RunOutcome) => x.runId, x);
  }

  lemma UnstoredPartsAgree(env: Env, s: State, e: Event, runId: string, owner: string)
    requires Agrees(env, s)
    ensures Agrees(env, Log(s, e)) && Agrees(env, PutOwner(s, runId, owner))
  {
    hide TableAgrees;
  }

  // ----- each call -----

  lemma RecordsAgree(env: Env, s: State, versionId: string, status: CheckStatus, runId: string)
    requires Agrees(env, s)
    ensures Agrees(env, RecordVerification(s, versionId, status, runId).0)
    ensures Agrees(env, RecordSimulation(s, versionId, status, runId).0)
  {
    hide Agrees, PutVersion, RTLVersion.Valid;
    if versionId in s.versions {
      var v := s.versions[versionId].(verificationStatus := status, verificationRunId := Some(runId));
      if v.Valid() { PutVersionAgrees(env, s, v); }
      var w := s.versions[versionId].(simulationStatus := status, simulationRunId := Some(runId));
      if w.Valid() { PutVersionAgrees(env, s, w); }
    }
  }

  lemma ObserveVersionAgrees(env: Env, s: State, versionId: string, seen: RTLVersion, runId: string, status: string)
    requires Agrees(env, s)
    ensures Agrees(env, ObserveVersion(s, versionId, seen, runId, status).0)
  {
    hide Agrees, RecordVerification, RecordSimulation, Result;
    RecordsAgree(env, s, versionId, Result(status), runId);
    RecordsAgree(env, RecordVerification(s, versionId, Result(status), runId).0, versionId, Result(status), runId);
  }

  lemma {:induction false} ObserveAllAgrees(env: Env, s: State, snapshot: map<string, RTLVersion>,
                                            order: seq<string>, runId: string, status: string)
    requires Agrees(env, s)
    requires forall i | 0 <= i < |order| :: order[i] in snapshot
    ensures Agrees(env, ObserveAll(s, snapshot, order, runId, status).0)
    decreases |order|
  {
    hide Agrees, ObserveVersion;
    if order != [] {
      ObserveVersionAgrees(env, s, order[0], snapshot[order[0]], runId, status);
      ObserveAllAgrees(env, ObserveVersion(s, order[0], snapshot[order[0]], runId, status).0, snapshot, order[1..],
                       runId, status);
    }
  }

  lemma ObserveRunAgrees(env: Env, s: State, runId: string, status: string, order: seq<string>)
    requires Agrees(env, s) && Enumerates(order, s.versions)
    ensures Agrees(env, ObserveRun(s, runId, status, order).0)
  {
    hide Agrees, ObserveAll;
    UnstoredPartsAgree(env, s, Observation(runId, status), "", "");
    ObserveAllAgrees(env, Log(s, Observation(runId, status)), s.versions, order, runId, status);
  }

  lemma RecordEvidenceAgrees(env: Env, s: State, e: EvidenceRef)
    requires Agrees(env, s)
    ensures Agrees(env, RecordEvidence(env, s, e).0)
  {
    hide Agrees, PutEvidence, EvidenceRef.Valid;
    if e.Valid(env) { PutEvidenceAgrees(env, s, e); }
  }

  lemma RecordGdsEvidenceAgrees(env: Env, s: State, versionId: string, runId: string, artifacts: seq<Artifact>,
                                pdk: string, metrics: seq<bool>, now: string)
    requires Agrees(env, s)
    ensures Agrees(env, RecordGdsEvidence(env, s, versionId, runId, artifacts, pdk, metrics, now).0)
  {
    hide Agrees, PutOutcome, RecordEvidence, GdsOutcome, GdsEvidence, M1RunOutcome.Valid, Missing;
    var outcome := GdsOutcome(versionId, runId, artifacts, pdk, metrics);
    if outcome.Valid() { PutOutcomeAgrees(env, s, outcome); }
    var evidence := GdsEvidence(env, s, versionId, runId, artifacts, pdk, now);
    if evidence.Some? { RecordEvidenceAgrees(env, s, evidence.value); }
  }

  lemma RequestAgrees(env: Env, s: State, owner: string, runId: string, run: RunRecord, now: string,
                      order: seq<string>, evidenceOrder: seq<string>)
    requires Agrees(env, s) && Enumerates(order, s.versions) && Enumerates(evidenceOrder, s.evidence)
    ensures Agrees(env, GetRun(env, s, owner, runId, run, now, order, evidenceOrder).0)
  {
    hide Agrees, ObserveRun, RecordGdsEvidence, AssertRunOwner, TaskVersion, TaskPdk;
    ObserveRunAgrees(env, s, runId, run.status, order);
    RecordGdsEvidenceAgrees(env, ObserveRun(s, runId, run.status, order).0, TaskVersion(run.taskId), runId,
                            run.artifacts, TaskPdk(run.taskId), run.metrics, now);
  }

  lemma AddVersionAgrees(env: Env, s: State, v: RTLVersion)
    requires Agrees(env, s)
    ensures Agrees(env, AddVersion(s, v).0)
  {
    hide Agrees, PutVersion, RTLVersion.Valid, Log;
    if v.Valid() {
      PutVersionAgrees(env, s, v);
      UnstoredPartsAgree(env, PutVersion(s, v), Created(v.versionId), "", "");
    }
  }

  lemma StoredVersionIsValid(env: Env, s: State, versionId: string)
    requires Agrees(env, s) && versionId in s.versions
    ensures s.versions[versionId].Valid() && s.versions[versionId].versionId == versionId
    ensures Withdrawn(s.versions[versionId]).Valid()
  {
    hide DecodeVersion, EncodeVersion;
    DecodedVersionIsValid(s.rows.versions[versionId]);
  }

  lemma CreateAgrees(env: Env, s: State, uuid: string, specId: string, source: string, generator: string,
                     parent: Option<string>, sourceRef: Option<string>)
    requires Agrees(env, s)
    ensures Agrees(env, CreateVersion(env, s, uuid, specId, source, generator, parent, sourceRef).0)
  {
    hide Agrees, PutVersion, RTLVersion.Valid, AddVersion, Log, NewVersion, Withdrawn;
    var v := NewVersion(env, uuid, specId, source, generator, parent, sourceRef);
    AddVersionAgrees(env, s, v);
    if parent.Some? && parent.value in s.versions {
      StoredVersionIsValid(env, s, parent.value);
      var withdrawn := Withdrawn(s.versions[parent.value]);
      PutVersionAgrees(env, s, withdrawn);
      UnstoredPartsAgree(env, PutVersion(s, withdrawn), Edited(withdrawn.versionId), "", "");
      AddVersionAgrees(env, Log(PutVersion(s, withdrawn), Edited(withdrawn.versionId)), v);
    }
  }

  lemma VerifyAgrees(env: Env, s: State, versionId: string, admitted: bool, v2: V2Reply)
    requires Agrees(env, s)
    ensures Agrees(env, SubmitVerification(s, versionId, admitted, v2).0)
  {
    hide Agrees, PutVersion, RTLVersion.Valid, Log;
    var task := BuildVerification(s, versionId, admitted);
    if task.Return? && RunOf(v2).Some? {
      var v := s.versions[versionId].(verificationStatus := Running, verificationRunId := Some(v2.runId));
      UnstoredPartsAgree(env, s, Submission(task.value, v2.runId), "", "");
      if v.Valid() { PutVersionAgrees(env, Log(s, Submission(task.value, v2.runId)), v); }
    }
  }

  lemma SimulateAgrees(env: Env, s: State, versionId: string, admitted: bool, v2: V2Reply)
    requires Agrees(env, s)
    ensures Agrees(env, SubmitSimulation(s, versionId, admitted, v2).0)
      <==> !Diverges(s, Simulate(versionId, admitted, v2))
  {
    hide Agrees, PutVersion, KeepVersion, OracleOf, IsBoundedId, Log;
    var task := BuildSimulation(s, versionId, admitted);
    if task.Return? && RunOf(v2).Some? {
      StoredVersionIsValid(env, s, versionId);
      var v := s.versions[versionId].(simulationStatus := Running, simulationRunId := Some(v2.runId));
      var s1 := Log(s, Submission(task.value, v2.runId));
      UnstoredPartsAgree(env, s, Submission(task.value, v2.runId), "", "");
      if v.Valid() { PutVersionAgrees(env, s1, v); } else { KeepVersionDiverges(env, s1, v); }
    }
  }

  lemma GdsAgrees(env: Env, s: State, versionId: string, pdk: string, admitted: bool, v2: V2Reply)
    requires Agrees(env, s)
    ensures Agrees(env, SubmitGds(env, s, versionId, pdk, admitted, v2).0)
  {
    hide Agrees, Log, PutOwner;
    var task := BuildGds(env, s, versionId, pdk, admitted);
    if task.Return? && RunOf(v2).Some? {
      UnstoredPartsAgree(env, s, Submission(task.value, v2.runId), "", "");
      UnstoredPartsAgree(env, Log(s, Submission(task.value, v2.runId)), Created(""), v2.runId,
                         s.sessions[s.versions[versionId].specId].ownerId);
    }
  }

  lemma AssessAgrees(env: Env, s: State, op: Op)
    requires Agrees(env, s) && op.Assess? && Possible(s, op)
    ensures Agrees(env, AssessSpec(s, op.uuid, op.owner, op.spec, op.questions, op.reason).0) <==> !Diverges(s, op)
  {
    if op.spec.Some? {
      AssessWithSpec(s, op.uuid, op.owner, op.spec.value, op.questions, op.reason);
    }
    hide Agrees, PutSession, KeepSession, M1Session.Valid, SpecIR.Valid, ClarificationQuestions, AssessesSpec;
    hide IsBoundedId, SerialisableMap, PlainMap;
    var (t, r) := AssessSpec(s, op.uuid, op.owner, op.spec, op.questions, op.reason);
    if r.Return? {
      PutSessionAgrees(env, s, r.value);
    } else if r.error == TypeError {
      var x: M1Session :| t == KeepSession(s, x) && x.specId == "spec-" + op.uuid;
      KeepSessionDiverges(env, s, x);
    }
  }

  /** The three ways an assessment with a spec ends. */
  lemma AssessWithSpec(s: State, uuid: string, owner: string, spec: SpecIR, questions: seq<string>,
                       reason: Option<string>)
    ensures var (t, r) := AssessSpec(s, uuid, owner, Some(spec), questions, reason);
            if !AssessesSpec(uuid, owner, spec, questions, reason) then t == s && r == Raise(ValueError)
            else if SerialisableMap(spec.constraints) then
              r.Return? && r.value.Valid() && r.value.spec == Some(spec) && t == PutSession(s, r.value)
            else r == Raise(TypeError) && exists x: M1Session :: t == KeepSession(s, x) && x.specId == "spec-" + uuid
  {
    hide SpecIR.Valid, HasPeriod, IsBoundedId, SerialisableMap, EncodeSession, IsText;
    var asked := ClarificationQuestions(spec);
    assert forall i | 0 <= i < |asked| :: NonBlank(asked[i]) by { QuestionIsText(); }
    var (t, r) := AssessSpec(s, uuid, owner, Some(spec), questions, reason);
    if AssessesSpec(uuid, owner, spec, questions, reason) && !SerialisableMap(spec.constraints) {
      var state := if asked != [] then NeedsClarification else Specified;
      var x := M1Session("spec-" + uuid, owner, state, Some(spec), asked, reason, None);
      assert t == KeepSession(s, x);
    }
  }

  lemma QuestionIsText()
    ensures NonBlank(PERIOD_QUESTION)
  {
    var question := PERIOD_QUESTION;
    assert question[|question| - 1] == '?' && !IsSpace('?');
  }

  lemma StoredSessionIsPlain(env: Env, s: State, specId: string)
    requires Agrees(env, s) && specId in s.sessions
    ensures HasPlainSpec(s.sessions[specId]) && s.sessions[specId].Valid()
  {
    hide EncodeSession, DecodeSession, HasPlainSpec, M1Session.Valid;
    DecodedSessionIsValid(s.rows.sessions[specId]);
    SessionRoundTrip(env, s.sessions[specId]);
  }

  lemma FreezeAgrees(env: Env, s: State, specId: string)
    requires Agrees(env, s)
    ensures Agrees(env, FreezeSpec(env, s, specId).0)
  {
    hide Agrees, PutSession, M1Session.Valid;
    var r := FreezeSpec(env, s, specId).1;
    if r.Return? {
      StoredSessionIsPlain(env, s, specId);
      PutSessionAgrees(env, s, r.value);
    }
  }

  lemma RegisterAgrees(env: Env, s: State, specId: string, package: VerificationPackage)
    requires Agrees(env, s)
    ensures Agrees(env, RegisterPackage(s, specId, package).0)
  {
    hide Agrees, PutPackage, VerificationPackage.Valid;
    if package.Valid() { PutPackageAgrees(env, s, package); }
  }

  /** One call keeps the agreement exactly when it is not one of the diverging calls, also when it raises. */
  lemma StepAgrees(env: Env, s: State, op: Op)
    requires Agrees(env, s) && Possible(s, op)
    ensures Agrees(env, Step(env, s, op).0) <==> !Diverges(s, op)
  {
    hide Agrees, AssessSpec, FreezeSpec, RegisterPackage, CreateVersion, SubmitVerification, SubmitSimulation;
    hide SubmitGds, ObserveRun, GetRun, RecordGdsEvidence, RecordEvidence, RecordVerification, RecordSimulation;
    match op {
      case Assess(_, _, _, _, _) => AssessAgrees(env, s, op);
      case Freeze(specId) => FreezeAgrees(env, s, specId);
      case Register(specId, package) => RegisterAgrees(env, s, specId, package);
      case Create(uuid, specId, source, generator, parent, sourceRef) =>
        CreateAgrees(env, s, uuid, specId, source, generator, parent, sourceRef);
      case Verify(id, admitted, v2) => VerifyAgrees(env, s, id, admitted, v2);
      case Simulate(id, admitted, v2) => SimulateAgrees(env, s, id, admitted, v2);
      case Gds(id, pdk, admitted, v2) => GdsAgrees(env, s, id, pdk, admitted, v2);
      case Observe(runId, status, order) => ObserveRunAgrees(env, s, runId, status, order);
      case Request(owner, runId, run, now, order, evidenceOrder) =>
        RequestAgrees(env, s, owner, runId, run, now, order, evidenceOrder);
      case Judge(id, runId, artifacts, pdk, metrics, now) =>
        RecordGdsEvidenceAgrees(env, s, id, runId, artifacts, pdk, metrics, now);
      case AddEvidence(e) => RecordEvidenceAgrees(env, s, e);
      case SetVerification(id, result, runId) => RecordsAgree(env, s, id, result, runId);
      case SetSimulation(id, result, runId) => RecordsAgree(env, s, id, result, runId);
    }
  }

  /** A run none of whose calls diverges. */
  predicate NeverDiverges(env: Env, s: State, ops: seq<Op>)
    requires PossibleRun(env, s, ops)
    decreases |ops|
  {
    ops == [] || (!Diverges(s, ops[0]) && NeverDiverges(env, Step(env, s, ops[0]).0, ops[1..]))
  }

  /** Main result: over any history of calls, returning or raising, the store holds the dictionaries. */
  lemma {:induction false} HistoryAgrees(env: Env, s: State, ops: seq<Op>)
    requires Agrees(env, s) && PossibleRun(env, s, ops) && NeverDiverges(env, s, ops)
    ensures Agrees(env, Run(env, s, ops))
    decreases |ops|
  {
    hide Agrees, Step, Diverges, Possible;
    if ops != [] {
      StepAgrees(env, s, ops[0]);
      HistoryAgrees(env, Step(env, s, ops[0]).0, ops[1..]);
    }
  }

  lemma EmptyAgrees(env: Env)
    ensures Agrees(env, EMPTY)
  {
  }

  /** Main result: whatever a service reopened on the store of such a history loads, it is the running service's
      dictionaries. */
  lemma ReopeningGivesTheRunningService(env: Env, ops: seq<Op>, reopened: State)
    requires PossibleRun(env, EMPTY, ops) && NeverDiverges(env, EMPTY, ops)
    requires reopened.rows == Run(env, EMPTY, ops).rows && reopened.history == Run(env, EMPTY, ops).history
    ensures LoadedState(env, reopened) <==> reopened == Run(env, EMPTY, ops)
  {
    hide LoadedFrom, TableAgrees, Run, PossibleRun, NeverDiverges;
    EmptyAgrees(env);
    HistoryAgrees(env, EMPTY, ops);
    var s := Run(env, EMPTY, ops);
    LoadingGivesTheDictionary(s.sessions, reopened.sessions, s.rows.sessions, EncodeSession, DecodeSession,
                              (x: M1Session) => x.specId);
    LoadingGivesTheDictionary(s.versions, reopened.versions, s.rows.versions, EncodeVersion, DecodeVersion,
                              (x: RTLVersion) => x.versionId);
    LoadingGivesTheDictionary(s.packages, reopened.packages, s.rows.packages, EncodePackage, DecodePackage,
                              (x: VerificationPackage) => x.specId);
    LoadingGivesTheDictionary(s.evidence, reopened.evidence, s.rows.evidence, EncodeEvidence,
                              v => DecodeEvidence(env, v), (x: EvidenceRef) => x.evidenceId);
    LoadingGivesTheDictionary(s.outcomes, reopened.outcomes, s.rows.outcomes, EncodeOutcome, DecodeOutcome,
                              (x: M1RunOutcome) => x.runId);
  }
}
