/** The mutable service and its store. Every method is shown to do to the object exactly what the corresponding
    function of `M1Model` does to its state, so the theorems about histories are theorems about these objects. */
module M1Service {
  import opened Wrappers
  import opened Values
  import opened Contracts
  import opened M1Model
  import opened M1Observe
  import opened M1WriteThrough
  import Text

  /** The store: one table per record kind, replaced row by row. */
  class M1Store {
    var sessions: map<string, Value>
    var versions: map<string, Value>
    var packages: map<string, Value>
    var evidence: map<string, Value>
    var owners: map<string, string>
    var outcomes: map<string, Value>

    constructor ()
      ensures Rows() == NO_ROWS
    {
      sessions, versions, packages, evidence, owners, outcomes := map[], map[], map[], map[], map[], map[];
    }

    function Rows(): Tables
      reads this
    {
      Tables(sessions, versions, packages, evidence, owners, outcomes)
    }

    method PutSession(x: M1Session, payload: Value) returns (r: Reply<()>)
      modifies this`sessions
      ensures r == if x.Valid() then Return(()) else Raise(ValueError)
      ensures sessions == if x.Valid() then old(sessions)[x.specId := payload] else old(sessions)
    {
      if !x.Valid() { return Raise(ValueError); }
      sessions := sessions[x.specId := payload];
      r := Return(());
    }

    method PutVersion(x: RTLVersion, payload: Value) returns (r: Reply<()>)
      modifies this`versions
      ensures r == if x.Valid() then Return(()) else Raise(ValueError)
      ensures versions == if x.Valid() then old(versions)[x.versionId := payload] else old(versions)
    {
      if !x.Valid() { return Raise(ValueError); }
      versions := versions[x.versionId := payload];
      r := Return(());
    }

    method PutPackage(x: VerificationPackage, payload: Value) returns (r: Reply<()>)
      modifies this`packages
      ensures r == if x.Valid() then Return(()) else Raise(ValueError)
      ensures packages == if x.Valid() then old(packages)[x.specId := payload] else old(packages)
    {
      if !x.Valid() { return Raise(ValueError); }
      packages := packages[x.specId := payload];
      r := Return(());
    }

    method PutEvidence(env: Env, x: EvidenceRef, payload: Value) returns (r: Reply<()>)
      modifies this`evidence
      ensures r == if x.Valid(env) then Return(()) else Raise(ValueError)
      ensures evidence == if x.Valid(env) then old(evidence)[x.evidenceId := payload] else old(evidence)
    {
      if !x.Valid(env) { return Raise(ValueError); }
      evidence := evidence[x.evidenceId := payload];
      r := Return(());
    }

    method PutOutcome(x: M1RunOutcome, payload: Value) returns (r: Reply<()>)
      modifies this`outcomes
      ensures r == if x.Valid() then Return(()) else Raise(ValueError)
      ensures outcomes == if x.Valid() then old(outcomes)[x.runId := payload] else old(outcomes)
    {
      if !x.Valid() { return Raise(ValueError); }
      outcomes := outcomes[x.runId := payload];
      r := Return(());
    }

    method PutOwner(runId: string, owner: string)
      modifies this`owners
      ensures owners == old(owners)[runId := owner]
    {
      owners := owners[runId := owner];
    }
  }

  /** Some row of the table does not decode. */
  ghost predicate Unreadable<T(!new)>(rows: map<string, Value>, decode: Value -> Option<T>) {
    exists k :: k in rows && decode(rows[k]).None?
  }

  ghost predicate UnreadableStore(env: Env, rows: Tables) {
    || Unreadable(rows.sessions, DecodeSession) || Unreadable(rows.versions, DecodeVersion)
    || Unreadable(rows.packages, DecodePackage) || Unreadable(rows.evidence, v => DecodeEvidence(env, v))
    || Unreadable(rows.outcomes, DecodeOutcome)
  }

  /** The rows and the history are what a list of calls without a diverging one left. */
  ghost predicate WroteStore(env: Env, ops: seq<Op>, rows: Tables, history: seq<Event>) {
    && PossibleRun(env, EMPTY, ops) && NeverDiverges(env, EMPTY, ops)
    && rows == Run(env, EMPTY, ops).rows && history == Run(env, EMPTY, ops).history
  }

  lemma AgreeingTableIsReadable<T(!new)>(rows: map<string, Value>, m: map<string, T>, encode: T -> Value,
                                         decode: Value -> Option<T>, key: T -> string)
    requires TableAgrees(rows, m, encode, decode, key)
    ensures !Unreadable(rows, decode)
  {
  }

  lemma StoresOfHistoriesAreReadable(env: Env, ops: seq<Op>, rows: Tables, history: seq<Event>)
    ensures WroteStore(env, ops, rows, history) ==> !UnreadableStore(env, rows)
  {
    hide Run, PossibleRun, NeverDiverges, TableAgrees, Unreadable;
    hide EncodeSession, EncodeVersion, EncodePackage, EncodeEvidence, EncodeOutcome;
    if WroteStore(env, ops, rows, history) {
      EmptyAgrees(env);
      HistoryAgrees(env, EMPTY, ops);
      var s := Run(env, EMPTY, ops);
      AgreeingTableIsReadable(rows.sessions, s.sessions, EncodeSession, DecodeSession, (x: M1Session) => x.specId);
      AgreeingTableIsReadable(rows.versions, s.versions, EncodeVersion, DecodeVersion, (x: RTLVersion) => x.versionId);
      AgreeingTableIsReadable(rows.packages, s.packages, EncodePackage, DecodePackage,
                              (x: VerificationPackage) => x.specId);
      AgreeingTableIsReadable(rows.evidence, s.evidence, EncodeEvidence, v => DecodeEvidence(env, v),
                              (x: EvidenceRef) => x.evidenceId);
      AgreeingTableIsReadable(rows.outcomes, s.outcomes, EncodeOutcome, DecodeOutcome, (x: M1RunOutcome) => x.runId);
    }
  }

  lemma ReopeningOnItsStore(env: Env, ops: seq<Op>, rows: Tables, history: seq<Event>, reopened: State)
    requires reopened.rows == rows && reopened.history == history && LoadedState(env, reopened)
    ensures WroteStore(env, ops, rows, history) ==> reopened == Run(env, EMPTY, ops)
  {
    hide Run, PossibleRun, NeverDiverges, LoadedState;
    if WroteStore(env, ops, rows, history) { ReopeningGivesTheRunningService(env, ops, reopened); }
  }

  /** Decodes a table row by row; stops at the first row that does not decode. */
  method LoadTable<T(!new)>(rows: map<string, Value>, decode: Value -> Option<T>, key: T -> string)
    returns (r: Option<map<string, T>>)
    ensures r.Some? ==> LoadedFrom(r.value, rows, decode, key)
    ensures r.None? <==> Unreadable(rows, decode)
  {
    var todo, loaded := rows.Keys, map[];
    while todo != {}
      invariant todo <= rows.Keys
      invariant forall k | k in rows && k !in todo :: decode(rows[k]).Some? && key(decode(rows[k]).value) in loaded
      invariant forall x | x in loaded ::
                  exists k :: k in rows && decode(rows[k]) == Some(loaded[x]) && key(loaded[x]) == x
      decreases |todo|
    {
      var k :| k in todo;
      var x := decode(rows[k]);
      if x.None? { return None; }
      loaded := loaded[key(x.value) := x.value];
      todo := todo - {k};
    }
    r := Some(loaded);
  }

  lemma LoadedIsKeyed<T(!new)>(m: map<string, T>, rows: map<string, Value>, decode: Value -> Option<T>,
                               key: T -> string)
    requires LoadedFrom(m, rows, decode, key)
    ensures forall x | x in m :: key(m[x]) == x
  {
  }

  class M1Service {
    const env: Env
    const store: M1Store
    var sessions: map<string, M1Session>
    var versions: map<string, RTLVersion>
    var packages: map<string, VerificationPackage>
    var evidence: map<string, EvidenceRef>
    var outcomes: map<string, M1RunOutcome>
    ghost var history: seq<Event>

    ghost function Model(): State
      reads this, store
    {
      State(sessions, versions, packages, evidence, outcomes, store.Rows(), history)
    }

    /** Sessions and versions are filed under their own ids. */
    ghost predicate Valid()
      reads this
    {
      && (forall k | k in sessions :: sessions[k].specId == k)
      && Keyed(versions)
    }

    constructor (env: Env, store: M1Store, sessions: map<string, M1Session>, versions: map<string, RTLVersion>,
                 packages: map<string, VerificationPackage>, evidence: map<string, EvidenceRef>,
                 outcomes: map<string, M1RunOutcome>, ghost history: seq<Event>)
      ensures this.env == env && this.store == store
      ensures Model() == State(sessions, versions, packages, evidence, outcomes, store.Rows(), history)
    {
      this.env, this.store, this.history := env, store, history;
      this.sessions, this.versions, this.packages := sessions, versions, packages;
      this.evidence, this.outcomes := evidence, outcomes;
    }

    /** Reads the whole store. It fails when a row does not decode; otherwise every dictionary is loaded. On a store
        left by a history without diverging calls it opens the service that was running. */
    static method Open(env: Env, store: M1Store, ghost history: seq<Event>, ghost ops: seq<Op>)
      returns (r: Option<M1Service>)
      ensures r.None? <==> UnreadableStore(env, store.Rows())
      ensures r.Some? ==> fresh(r.value) && r.value.env == env && r.value.store == store
                          && r.value.Model().rows == store.Rows() && r.value.history == history
                          && LoadedState(env, r.value.Model()) && r.value.Valid()
      ensures WroteStore(env, ops, store.Rows(), history) ==> r.Some? && r.value.Model() == Run(env, EMPTY, ops)
    {
      hide DecodeSession, DecodeVersion, DecodePackage, DecodeEvidence, DecodeOutcome, LoadedFrom, Unreadable;
      hide WroteStore, Run, PossibleRun;
      var sessions := LoadTable(store.sessions, DecodeSession, (x: M1Session) => x.specId);
      var versions := LoadTable(store.versions, DecodeVersion, (x: RTLVersion) => x.versionId);
      var packages := LoadTable(store.packages, DecodePackage, (x: VerificationPackage) => x.specId);
      var evidence := LoadTable(store.evidence, v => DecodeEvidence(env, v), (x: EvidenceRef) => x.evidenceId);
      var outcomes := LoadTable(store.outcomes, DecodeOutcome, (x: M1RunOutcome) => x.runId);
      if sessions.None? || versions.None? || packages.None? || evidence.None? || outcomes.None? {
        StoresOfHistoriesAreReadable(env, ops, store.Rows(), history);
        return None;
      }
      var service := new M1Service(env, store, sessions.value, versions.value, packages.value, evidence.value,
                                   outcomes.value, history);
      LoadedIsKeyed(sessions.value, store.sessions, DecodeSession, (x: M1Session) => x.specId);
      LoadedIsKeyed(versions.value, store.versions, DecodeVersion, (x: RTLVersion) => x.versionId);
      r := Some(service);
      ReopeningOnItsStore(env, ops, store.Rows(), history, service.Model());
    }

    method SaveSession(x: M1Session) returns (r: Reply<()>)
      modifies store`sessions
      ensures r == if !x.Valid() then Raise(ValueError) else if !IsWritable(x) then Raise(TypeError) else Return(())
      ensures store.sessions
        == if r.Return? then old(store.sessions)[x.specId := EncodeSession(x)] else old(store.sessions)
    {
      if !x.Valid() { return Raise(ValueError); }
      if !IsWritable(x) { return Raise(TypeError); }
      r := store.PutSession(x, EncodeSession(x));
    }

    method SaveVersion(x: RTLVersion) returns (r: Reply<()>)
      modifies store`versions
      ensures r == if x.Valid() then Return(()) else Raise(ValueError)
      ensures store.versions
        == if x.Valid() then old(store.versions)[x.versionId := EncodeVersion(x)] else old(store.versions)
    {
      r := store.PutVersion(x, EncodeVersion(x));
    }

    method AssessSpec(uuid: string, owner: string, spec: Option<SpecIR>, questions: seq<string>, reason: Option<string>)
      returns (r: Reply<M1Session>)
      requires Valid()
      modifies this, store
      ensures Valid() && (Model(), r) == M1Model.AssessSpec(old(Model()), uuid, owner, spec, questions, reason)
    {
      hide EncodeSession, SpecIR.Valid, M1Session.Valid, ClarificationQuestions, IsWritable;
      if spec.Some? && (questions != [] || Given(reason)) { return Raise(ValueError); }
      var state, asked := Specified, questions;
      if Given(reason) {
        state := UnsupportedScope;
      } else if questions != [] || spec.None? {
        state := NeedsClarification;
        if questions == [] { asked := [DEFAULT_QUESTION]; }
      } else {
        if !spec.value.Valid() { return Raise(ValueError); }
        asked := ClarificationQuestions(spec.value);
        if asked != [] { state := NeedsClarification; }
      }
      var session := M1Session("spec-" + uuid, owner, state, spec, asked, reason, None);
      if !session.Valid() { return Raise(ValueError); }
      sessions := sessions[session.specId := session];
      var saved := SaveSession(session);
      r := if saved.Raise? then Raise(saved.error) else Return(session);
    }

    method FreezeSpec(specId: string) returns (r: Reply<M1Session>)
      requires Valid()
      modifies this, store
      ensures Valid() && (Model(), r) == M1Model.FreezeSpec(env, old(Model()), specId)
    {
      hide EncodeSession, M1Session.Valid, SpecIR.Valid, Fingerprint;
      if specId !in sessions { return Raise(KeyError); }
      var session := sessions[specId];
      if session.state == UnsupportedScope { return Raise(ValueError); }
      if session.state == NeedsClarification { return Raise(ValueError); }
      if session.state != Specified || session.spec.None? { return Raise(ValueError); }
      if !session.spec.value.Valid() { return Raise(ValueError); }
      if !IsWritable(session) { return Raise(TypeError); }
      var frozen := session.(state := Frozen, frozenFingerprint := Some(Fingerprint(env, session.spec.value)));
      if !frozen.Valid() { return Raise(ValueError); }
      sessions := sessions[specId := frozen];
      var saved := SaveSession(frozen);
      r := Return(frozen);
    }

    method RegisterPackage(specId: string, package: VerificationPackage) returns (r: Reply<VerificationPackage>)
      requires Valid()
      modifies this, store
      ensures Valid() && (Model(), r) == M1Model.RegisterPackage(old(Model()), specId, package)
    {
      hide EncodePackage, VerificationPackage.Valid;
      if specId !in sessions { return Raise(KeyError); }
      if sessions[specId].state != Frozen { return Raise(ValueError); }
      if package.specId != specId { return Raise(ValueError); }
      if !package.Valid() { return Raise(ValueError); }
      if specId in packages { return Raise(ValueError); }
      packages := packages[specId := package];
      var saved := store.PutPackage(package, EncodePackage(package));
      r := Return(package);
    }

    /** Withdraws the parent of an edit first; the new version may still be refused after that. */
    method CreateVersion(uuid: string, specId: string, source: string, generator: string, parent: Option<string>,
                         sourceRef: Option<string>) returns (r: Reply<RTLVersion>)
      requires Valid()
      modifies this, store
      ensures Valid()
      ensures (Model(), r)
        == M1Model.CreateVersion(env, old(Model()), uuid, specId, source, generator, parent, sourceRef)
    {
      hide EncodeVersion, RTLVersion.Valid, Text.NonBlank;
      if specId !in sessions { return Raise(KeyError); }
      if sessions[specId].state != Frozen { return Raise(ValueError); }
      if !Text.NonBlank(source) { return Raise(ValueError); }
      if parent.Some? {
        if parent.value !in versions { return Raise(KeyError); }
        var edited := versions[parent.value];
        if edited.specId != specId { return Raise(ValueError); }
        var withdrawn := edited.(verificationStatus := Invalidated, verificationRunId := None,
                                 simulationStatus := Invalidated, simulationRunId := None);
        versions := versions[edited.versionId := withdrawn];
        history := history + [Edited(withdrawn.versionId)];
        var saved := SaveVersion(withdrawn);
        if saved.Raise? { return Raise(saved.error); }
      }
      var version := RTLVersion("rtl-" + uuid, specId, env.shaOfText(source), generator, NotRun, None, NotRun, None,
                                parent, sourceRef);
      if !version.Valid() { return Raise(ValueError); }
      versions := versions[version.versionId := version];
      history := history + [Created(version.versionId)];
      var saved := SaveVersion(version);
      r := Return(version);
    }

    method RecordVerification(versionId: string, status: CheckStatus, runId: string) returns (r: Reply<RTLVersion>)
      requires Valid()
      modifies this, store
      ensures Valid() && (Model(), r) == M1Model.RecordVerification(old(Model()), versionId, status, runId)
    {
      hide EncodeVersion, RTLVersion.Valid;
      if versionId !in versions { return Raise(KeyError); }
      var version := versions[versionId];
      if version.verificationStatus == Invalidated { return Raise(ValueError); }
      if !(status.Passed? || status.Failed?) { return Raise(ValueError); }
      var updated := version.(verificationStatus := status, verificationRunId := Some(runId));
      if !updated.Valid() { return Raise(ValueError); }
      versions := versions[versionId := updated];
      var saved := SaveVersion(updated);
      r := Return(updated);
    }

    method RecordSimulation(versionId: string, status: CheckStatus, runId: string) returns (r: Reply<RTLVersion>)
      requires Valid()
      modifies this, store
      ensures Valid() && (Model(), r) == M1Model.RecordSimulation(old(Model()), versionId, status, runId)
    {
      hide EncodeVersion, RTLVersion.Valid;
      if versionId !in versions { return Raise(KeyError); }
      var version := versions[versionId];
      if version.verificationStatus != Passed { return Raise(ValueError); }
      if !(status.Passed? || status.Failed?) { return Raise(ValueError); }
      var updated := version.(simulationStatus := status, simulationRunId := Some(runId));
      if !updated.Valid() { return Raise(ValueError); }
      versions := versions[versionId := updated];
      var saved := SaveVersion(updated);
      r := Return(updated);
    }

    /** Saves the running record before it updates the dictionary. */
    method SubmitVerification(versionId: string, admitted: bool, v2: V2Reply) returns (r: Reply<string>)
      requires Valid()
      modifies this, store
      ensures Valid() && (Model(), r) == M1Model.SubmitVerification(old(Model()), versionId, admitted, v2)
    {
      hide EncodeVersion, RTLVersion.Valid;
      var task := BuildVerification(State(sessions, versions, packages, evidence, outcomes, store.Rows(), []),
                                    versionId, admitted);
      BuildsReadDictionaries(env, State(sessions, versions, packages, evidence, outcomes, store.Rows(), []), Model(),
                             versionId, "", admitted);
      if task.Raise? { return Raise(task.error); }
      if RunOf(v2).None? { return Raise(ValueError); }
      history := history + [Submission(task.value, v2.runId)];
      var updated := versions[versionId].(verificationStatus := Running, verificationRunId := Some(v2.runId));
      var saved := SaveVersion(updated);
      if saved.Raise? { return Raise(saved.error); }
      versions := versions[versionId := updated];
      r := Return(v2.runId);
    }

    /** Updates the dictionary before it saves the running record. */
    method SubmitSimulation(versionId: string, admitted: bool, v2: V2Reply) returns (r: Reply<string>)
      requires Valid()
      modifies this, store
      ensures Valid() && (Model(), r) == M1Model.SubmitSimulation(old(Model()), versionId, admitted, v2)
    {
      hide EncodeVersion, RTLVersion.Valid, OracleOf;
      var task := BuildSimulation(State(sessions, versions, packages, evidence, outcomes, store.Rows(), []),
                                  versionId, admitted);
      BuildsReadDictionaries(env, State(sessions, versions, packages, evidence, outcomes, store.Rows(), []), Model(),
                             versionId, "", admitted);
      if task.Raise? { return Raise(task.error); }
      if RunOf(v2).None? { return Raise(ValueError); }
      history := history + [Submission(task.value, v2.runId)];
      var updated := versions[versionId].(simulationStatus := Running, simulationRunId := Some(v2.runId));
      versions := versions[versionId := updated];
      var saved := SaveVersion(updated);
      if saved.Raise? { return Raise(saved.error); }
      r := Return(v2.runId);
    }

    method SubmitGds(versionId: string, pdk: string, admitted: bool, v2: V2Reply) returns (r: Reply<string>)
      requires Valid()
      modifies this, store
      ensures Valid() && (Model(), r) == M1Model.SubmitGds(env, old(Model()), versionId, pdk, admitted, v2)
    {
      hide Fingerprint;
      var task := BuildGds(env, State(sessions, versions, packages, evidence, outcomes, store.Rows(), []),
                           versionId, pdk, admitted);
      BuildsReadDictionaries(env, State(sessions, versions, packages, evidence, outcomes, store.Rows(), []), Model(),
                             versionId, pdk, admitted);
      if task.Raise? { return Raise(task.error); }
      if RunOf(v2).None? { return Raise(ValueError); }
      history := history + [Submission(task.value, v2.runId)];
      store.PutOwner(v2.runId, sessions[versions[versionId].specId].ownerId);
      r := Return(v2.runId);
    }

    /** Walks through a snapshot of the versions in dictionary order and records the result of the run. */
    method ObserveRun(runId: string, status: string, order: seq<string>) returns (r: Reply<()>)
      requires Valid() && Enumerates(order, versions)
      modifies this, store
      ensures Valid() && (Model(), r) == M1Model.ObserveRun(old(Model()), runId, status, order)
    {
      hide M1Model.RecordVerification, M1Model.RecordSimulation, Result;
      if status !in TERMINAL { return Return(()); }
      history := history + [Observation(runId, status)];
      var snapshot := versions;
      var n := 0;
      while n < |order|
        invariant 0 <= n <= |order| && Valid()
        invariant ObserveAll(Log(old(Model()), Observation(runId, status)), snapshot, order, runId, status)
               == ObserveAll(Model(), snapshot, order[n..], runId, status)
      {
        var versionId := order[n];
        var seen := snapshot[versionId];
        assert order[n..][0] == versionId && order[n..][1..] == order[n + 1..];
        if seen.verificationRunId == Some(runId) && seen.verificationStatus == Running {
          var recorded := RecordVerification(versionId, Result(status), runId);
          if recorded.Raise? { return Raise(recorded.error); }
        }
        if seen.simulationRunId == Some(runId) && seen.simulationStatus == Running {
          var recorded := RecordSimulation(versionId, Result(status), runId);
          if recorded.Raise? { return Raise(recorded.error); }
        }
        n := n + 1;
      }
      r := Return(());
    }

    method RecordEvidence(e: EvidenceRef) returns (r: Reply<EvidenceRef>)
      requires Valid()
      modifies this, store
      ensures Valid() && (Model(), r) == M1Model.RecordEvidence(env, old(Model()), e)
    {
      hide EncodeEvidence, EvidenceRef.Valid, HasGdsArtifact;
      if !e.Valid(env) { return Raise(ValueError); }
      if e.specId !in sessions { return Raise(KeyError); }
      if e.candidateId !in versions { return Raise(KeyError); }
      var version := versions[e.candidateId];
      if sessions[e.specId].ownerId != e.ownerId { return Raise(ValueError); }
      if version.specId != e.specId { return Raise(ValueError); }
      if e.evidenceKind == "rtl_to_gds" && e.status == "succeeded" {
        if !HasGdsArtifact(e) { return Raise(ValueError); }
        if version.verificationStatus != Passed { return Raise(ValueError); }
        if version.simulationStatus != Passed { return Raise(ValueError); }
      }
      if e.evidenceId in evidence { return Raise(ValueError); }
      evidence := evidence[e.evidenceId := e];
      var saved := store.PutEvidence(env, e, EncodeEvidence(e));
      r := Return(e);
    }

    method RecordGdsEvidence(versionId: string, runId: string, artifacts: seq<Artifact>, pdk: string,
                             metrics: seq<bool>, now: string) returns (r: Reply<Verdict>)
      requires Valid()
      modifies this, store
      ensures Valid()
      ensures (Model(), r)
        == M1Model.RecordGdsEvidence(env, old(Model()), versionId, runId, artifacts, pdk, metrics, now)
    {
      hide EncodeOutcome, M1RunOutcome.Valid, GdsOutcome, Missing, M1Model.RecordEvidence, KindRefs, Snapshot, Protocol;
      var evidenceId := "evidence:" + runId;
      if evidenceId in evidence { return Return(Evidenced(evidence[evidenceId])); }
      if runId in outcomes { return Return(GdsIncomplete(outcomes[runId])); }
      if Missing(artifacts, metrics) != [] {
        var outcome := GdsOutcome(versionId, runId, artifacts, pdk, metrics);
        if !outcome.Valid() { return Raise(ValueError); }
        outcomes := outcomes[outcome.runId := outcome];
        var saved := store.PutOutcome(outcome, EncodeOutcome(outcome));
        return Return(GdsIncomplete(outcome));
      }
      var built := GdsEvidence(env, State(sessions, versions, packages, evidence, outcomes, store.Rows(), []),
                               versionId, runId, artifacts, pdk, now);
      if built.None? { return Raise(KeyError); }
      var recorded := RecordEvidence(built.value);
      if recorded.Raise? { return Raise(recorded.error); }
      r := Return(Evidenced(recorded.value));
    }

    /** The stored owner decides; else the first version carrying the run; else the first evidence of it. */
    method AssertRunOwner(runId: string, owner: string, versionOrder: seq<string>, evidenceOrder: seq<string>)
      returns (r: Reply<()>)
      requires Valid() && Enumerates(versionOrder, versions) && Enumerates(evidenceOrder, evidence)
      ensures r == M1Model.AssertRunOwner(Model(), runId, owner, versionOrder, evidenceOrder)
    {
      hide CarrierOf, OwnerByEvidence;
      if runId in store.owners {
        if store.owners[runId] != owner { return Raise(PermissionError); }
        return Return(());
      }
      var n := 0;
      while n < |versionOrder|
        invariant 0 <= n <= |versionOrder|
        invariant CarrierOf(Model(), runId, versionOrder) == CarrierOf(Model(), runId, versionOrder[n..])
      {
        var version := versions[versionOrder[n]];
        CarrierStep(Model(), runId, versionOrder, n);
        if version.verificationRunId == Some(runId) || version.simulationRunId == Some(runId) {
          if version.specId !in sessions { return Raise(KeyError); }
          if sessions[version.specId].ownerId == owner { return Return(()); }
          return Raise(PermissionError);
        }
        n := n + 1;
      }
      NothingCarried(Model(), runId, versionOrder);
      n := 0;
      while n < |evidenceOrder|
        invariant 0 <= n <= |evidenceOrder|
        invariant OwnerByEvidence(Model(), runId, evidenceOrder) == OwnerByEvidence(Model(), runId, evidenceOrder[n..])
      {
        var item := evidence[evidenceOrder[n]];
        EvidenceStep(Model(), runId, evidenceOrder, n);
        if item.runId == runId {
          if item.ownerId == owner { return Return(()); }
          return Raise(PermissionError);
        }
        n := n + 1;
      }
      NothingNamed(Model(), runId, evidenceOrder);
      r := Raise(KeyError);
    }
  }

  /** One turn of each search loop, and its end. */
  lemma CarrierStep(s: State, runId: string, order: seq<string>, n: nat)
    requires n < |order| && forall i | 0 <= i < |order| :: order[i] in s.versions
    ensures CarrierOf(s, runId, order[n..]) ==
            if Carries(s.versions[order[n]], runId) then Some(order[n]) else CarrierOf(s, runId, order[n + 1..])
  {
    assert order[n..][0] == order[n] && order[n..][1..] == order[n + 1..];
  }

  lemma EvidenceStep(s: State, runId: string, order: seq<string>, n: nat)
    requires n < |order| && forall i | 0 <= i < |order| :: order[i] in s.evidence
    ensures OwnerByEvidence(s, runId, order[n..]) ==
            if s.evidence[order[n]].runId == runId then Some(s.evidence[order[n]].ownerId)
            else OwnerByEvidence(s, runId, order[n + 1..])
  {
    assert order[n..][0] == order[n] && order[n..][1..] == order[n + 1..];
  }

  lemma NothingCarried(s: State, runId: string, order: seq<string>)
    requires forall i | 0 <= i < |order| :: order[i] in s.versions
    ensures CarrierOf(s, runId, order[|order|..]) == None
  {
    assert order[|order|..] == [];
  }

  lemma NothingNamed(s: State, runId: string, order: seq<string>)
    requires forall i | 0 <= i < |order| :: order[i] in s.evidence
    ensures OwnerByEvidence(s, runId, order[|order|..]) == None
  {
    assert order[|order|..] == [];
  }

  /** Building a task reads the dictionaries only. */
  lemma BuildsReadDictionaries(env: Env, s: State, t: State, versionId: string, pdk: string, admitted: bool)
    requires s.sessions == t.sessions && s.versions == t.versions && s.packages == t.packages
    ensures BuildVerification(s, versionId, admitted) == BuildVerification(t, versionId, admitted)
    ensures BuildSimulation(s, versionId, admitted) == BuildSimulation(t, versionId, admitted)
    ensures BuildGds(env, s, versionId, pdk, admitted) == BuildGds(env, t, versionId, pdk, admitted)
  {
  }
}
