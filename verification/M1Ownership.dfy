/** Only the owner of the session a run was submitted for is let through to that run, in every history of the server's
    calls, made one at a time, and whatever the iteration order of the dictionaries. The execution service is an
    injective map from task ids (its idempotency keys) to run ids. */
module M1Ownership {
  import opened Wrappers
  import opened Text
  import opened Contracts
  import opened M1Model
  import opened M1Observe

  // ----- task ids -----

  /** The id a task is submitted under, which is also its idempotency key. */
  predicate NamedTask(task: Task) {
    match task
    case VerifyTask(taskId, versionId, _, _, _, _, _) => taskId == VerifyTaskId(versionId)
    case SimulateTask(taskId, versionId, _, _, _, _, _, _) => taskId == SimulateTaskId(versionId)
    case GdsTask(taskId, versionId, _, _, _, _, _, _, pdk, _, _, _) =>
      taskId == GdsTaskId(versionId, pdk) && Free(pdk, '-')
  }

  /** A GDS task id gives back its version and its PDK, for every PDK name without a hyphen. */
  lemma GdsTaskIdParses(versionId: string, pdk: string)
    requires Free(pdk, '-')
    ensures GDS_PREFIX <= GdsTaskId(versionId, pdk)
    ensures TaskVersion(GdsTaskId(versionId, pdk)) == versionId
    ensures TaskPdk(GdsTaskId(versionId, pdk)) == pdk
  {
    var id := GdsTaskId(versionId, pdk);
    assert id == GDS_PREFIX + (versionId + ['-'] + pdk) == (GDS_PREFIX + versionId) + ['-'] + pdk;
    assert RemovePrefix(id, GDS_PREFIX) == versionId + ['-'] + pdk;
    SplitAtLast(versionId, pdk, '-');
    SplitAtLast(GDS_PREFIX + versionId, pdk, '-');
  }

  lemma TaskIdPrefixes(task: Task)
    requires NamedTask(task)
    ensures |task.taskId| > 3
    ensures task.taskId[3] == (if task.VerifyTask? then 'v' else if task.SimulateTask? then 's' else 'g')
    ensures GDS_PREFIX <= task.taskId <==> task.GdsTask?
  {
    if !task.GdsTask? { assert GDS_PREFIX[3] == 'g'; }
    if task.GdsTask? { GdsTaskIdParses(task.versionId, task.pdk); }
  }

  /** Task ids are injective across kind, version and PDK. */
  lemma TaskIdsDetermineTasks(a: Task, b: Task)
    requires NamedTask(a) && NamedTask(b) && a.taskId == b.taskId
    ensures a.versionId == b.versionId
    ensures a.VerifyTask? == b.VerifyTask? && a.SimulateTask? == b.SimulateTask?
    ensures a.GdsTask? ==> a.pdk == b.pdk
  {
    TaskIdPrefixes(a);
    TaskIdPrefixes(b);
    match a {
      case VerifyTask(id, v, _, _, _, _, _) =>
        assert v == id[|"m1-verify-"|..] == b.versionId;
      case SimulateTask(id, v, _, _, _, _, _, _) =>
        assert v == id[|"m1-sim-"|..] == b.versionId;
      case GdsTask(id, v, _, _, _, _, _, _, pdk, _, _, _) =>
        GdsTaskIdParses(v, pdk);
        GdsTaskIdParses(b.versionId, b.pdk);
    }
  }

  // ----- which runs belong to which version -----

  predicate SubmittedAt(h: seq<Event>, n: nat, runId: string, versionId: string) {
    n < |h| && h[n].Submission? && h[n].runId == runId && h[n].task.versionId == versionId
  }

  ghost predicate SubmittedFor(s: State, runId: string, versionId: string) {
    versionId in s.versions && exists n: nat :: SubmittedAt(s.history, n, runId, versionId)
  }

  function OwnerOfVersion(s: State, versionId: string): string
    requires versionId in s.versions && s.versions[versionId].specId in s.sessions
  {
    s.sessions[s.versions[versionId].specId].ownerId
  }

  ghost predicate Injective(oracle: string -> string) {
    forall a, b :: oracle(a) == oracle(b) ==> a == b
  }

  predicate EventOk(oracle: string -> string, s: State, e: Event) {
    e.Submission? ==>
      && NamedTask(e.task) && e.runId == oracle(e.task.taskId) && e.task.versionId in s.versions
      && (e.task.GdsTask? ==> e.runId in s.rows.owners)
  }

  ghost predicate VersionOk(s: State, id: string)
    requires id in s.versions
  {
    var v := s.versions[id];
    && v.versionId == id && v.specId in s.sessions
    && (v.verificationRunId.Some? ==> SubmittedFor(s, v.verificationRunId.value, id))
    && (v.simulationRunId.Some? ==> SubmittedFor(s, v.simulationRunId.value, id))
  }

  ghost predicate OwnedRun(s: State, runId: string, owner: string) {
    exists id ::
      SubmittedFor(s, runId, id) && s.versions[id].specId in s.sessions && OwnerOfVersion(s, id) == owner
  }

  /** What holds of every state the server reaches. */
  ghost predicate Owned(oracle: string -> string, s: State) {
    && (forall n | 0 <= n < |s.history| :: EventOk(oracle, s, s.history[n]))
    && (forall id | id in s.versions :: VersionOk(s, id))
    && (forall runId | runId in s.rows.owners :: OwnedRun(s, runId, s.rows.owners[runId]))
    && (forall k | k in s.evidence :: OwnedRun(s, s.evidence[k].runId, s.evidence[k].ownerId))
  }

  /** A run is submitted for one version only. */
  lemma OneVersionPerRun(oracle: string -> string, s: State, runId: string, a: string, b: string)
    requires Injective(oracle) && Owned(oracle, s) && SubmittedFor(s, runId, a) && SubmittedFor(s, runId, b)
    ensures a == b
  {
    var m: nat :| SubmittedAt(s.history, m, runId, a);
    var n: nat :| SubmittedAt(s.history, n, runId, b);
    assert EventOk(oracle, s, s.history[m]) && EventOk(oracle, s, s.history[n]);
    TaskIdsDetermineTasks(s.history[m].task, s.history[n].task);
  }

  lemma OneOwnerPerRun(oracle: string -> string, s: State, runId: string, a: string, b: string)
    requires Injective(oracle) && Owned(oracle, s) && OwnedRun(s, runId, a) && OwnedRun(s, runId, b)
    ensures a == b
  {
    hide Owned, Injective;
    var v :| SubmittedFor(s, runId, v) && s.versions[v].specId in s.sessions && OwnerOfVersion(s, v) == a;
    var w :| SubmittedFor(s, runId, w) && s.versions[w].specId in s.sessions && OwnerOfVersion(s, w) == b;
    OneVersionPerRun(oracle, s, runId, v, w);
  }

  // ----- preservation -----

  /** The parts ownership reads only grow. */
  predicate Grows(s: State, t: State) {
    && s.history <= t.history
    && s.versions.Keys <= t.versions.Keys
    && (forall id | id in s.versions :: t.versions[id].specId == s.versions[id].specId)
    && s.sessions.Keys <= t.sessions.Keys
    && (forall k | k in s.sessions :: t.sessions[k].ownerId == s.sessions[k].ownerId)
    && s.rows.owners.Keys <= t.rows.owners.Keys
  }

  lemma RunsStayOwned(s: State, t: State)
    requires Grows(s, t)
    ensures forall r, id :: SubmittedFor(s, r, id) ==> SubmittedFor(t, r, id)
    ensures forall r, o :: OwnedRun(s, r, o) ==> OwnedRun(t, r, o)
  {
    forall r, id | SubmittedFor(s, r, id) ensures SubmittedFor(t, r, id) {
      var n: nat :| SubmittedAt(s.history, n, r, id);
      assert SubmittedAt(t.history, n, r, id);
    }
    forall r, o | OwnedRun(s, r, o) ensures OwnedRun(t, r, o) {
      var id :| SubmittedFor(s, r, id) && s.versions[id].specId in s.sessions && OwnerOfVersion(s, id) == o;
      assert SubmittedFor(t, r, id);
    }
  }

  /** To stay owned it is enough to justify what is new or changed. */
  lemma Advance(oracle: string -> string, s: State, t: State)
    requires Owned(oracle, s) && Grows(s, t)
    requires forall n | |s.history| <= n < |t.history| :: EventOk(oracle, t, t.history[n])
    requires forall id | id in t.versions && !(id in s.versions && t.versions[id] == s.versions[id]) :: VersionOk(t, id)
    requires forall r | r in t.rows.owners && !(r in s.rows.owners && t.rows.owners[r] == s.rows.owners[r]) ::
               OwnedRun(t, r, t.rows.owners[r])
    requires forall k | k in t.evidence && !(k in s.evidence && t.evidence[k] == s.evidence[k]) ::
               OwnedRun(t, t.evidence[k].runId, t.evidence[k].ownerId)
    ensures Owned(oracle, t)
  {
    hide NamedTask, OwnedRun, SubmittedFor;
    RunsStayOwned(s, t);
    forall n | 0 <= n < |t.history| ensures EventOk(oracle, t, t.history[n]) {
      if n < |s.history| { assert EventOk(oracle, s, s.history[n]); }
    }
    forall id | id in t.versions ensures VersionOk(t, id) {
      if id in s.versions && t.versions[id] == s.versions[id] { assert VersionOk(s, id); }
    }
  }

  lemma AssessGrows(s: State, uuid: string, owner: string, spec: Option<SpecIR>, questions: seq<string>,
                    reason: Option<string>)
    requires KeyedSessions(s) && "spec-" + uuid !in s.sessions
    ensures var t := AssessSpec(s, uuid, owner, spec, questions, reason).0;
            && KeyedSessions(t) && s.sessions.Keys <= t.sessions.Keys
            && (forall k | k in s.sessions :: t.sessions[k].ownerId == s.sessions[k].ownerId)
  {
    hide M1Session.Valid, SpecIR.Valid, ClarificationQuestions, EncodeSession, IsWritable;
  }

  lemma SessionsGrow(env: Env, s: State, op: Op)
    requires Possible(s, op) && (op.Assess? || op.Freeze? || op.Register?) && KeyedSessions(s)
    ensures var t := Step(env, s, op).0;
            && KeyedSessions(t) && s.sessions.Keys <= t.sessions.Keys
            && (forall k | k in s.sessions :: t.sessions[k].ownerId == s.sessions[k].ownerId)
  {
    hide AssessSpec, FreezeSpec, RegisterPackage, KeyedSessions;
    match op {
      case Assess(uuid, owner, spec, questions, reason) => AssessGrows(s, uuid, owner, spec, questions, reason);
      case Freeze(specId) => FreezeGrows(env, s, specId);
      case Register(specId, package) => RegisterKeepsSessions(s, specId, package);
    }
  }

  lemma FreezeGrows(env: Env, s: State, specId: string)
    requires KeyedSessions(s)
    ensures var t := FreezeSpec(env, s, specId).0;
            && KeyedSessions(t) && s.sessions.Keys <= t.sessions.Keys
            && (forall k | k in s.sessions :: t.sessions[k].ownerId == s.sessions[k].ownerId)
  {
    hide M1Session.Valid, SpecIR.Valid, EncodeSession, IsWritable, Fingerprint;
  }

  lemma RegisterKeepsSessions(s: State, specId: string, package: VerificationPackage)
    ensures RegisterPackage(s, specId, package).0.sessions == s.sessions
    ensures KeyedSessions(s) ==> KeyedSessions(RegisterPackage(s, specId, package).0)
  {
    hide VerificationPackage.Valid, EncodePackage;
  }

  predicate KeyedSessions(s: State) {
    forall k | k in s.sessions :: s.sessions[k].specId == k
  }

  lemma SpecificationsOwned(oracle: string -> string, env: Env, s: State, op: Op)
    requires Owned(oracle, s) && KeyedSessions(s) && Possible(s, op) && (op.Assess? || op.Freeze? || op.Register?)
    ensures Owned(oracle, Step(env, s, op).0) && KeyedSessions(Step(env, s, op).0)
  {
    SessionsGrow(env, s, op);
    SpecificationsFrame(env, s, op);
    hide Step, Owned, EventOk, VersionOk, OwnedRun;
    Advance(oracle, s, Step(env, s, op).0);
  }

  lemma ObservedVersionsOwned(oracle: string -> string, s: State, t: State, runId: string, status: string)
    requires Owned(oracle, s) && OnlyVersionsDiffer(Log(s, Observation(runId, status)), t)
    requires PartlyObserved(s.versions, t.versions, runId, status)
    ensures Owned(oracle, t) && Grows(s, t) && t.sessions == s.sessions && t.evidence == s.evidence
    ensures forall r, o :: OwnedRun(s, r, o) ==> OwnedRun(t, r, o)
  {
    hide SubmittedFor, OwnedRun, Result, Owned;
    assert Grows(s, t);
    RunsStayOwned(s, t);
    forall id | id in t.versions ensures VersionOk(t, id) { OwnedVersion(oracle, s, id); }
    Advance(oracle, s, t);
  }

  /** Observations keep ids, specs and runs. */
  lemma ObserveOwned(oracle: string -> string, s: State, runId: string, status: string, order: seq<string>)
    requires Owned(oracle, s) && Enumerates(order, s.versions)
    ensures var t := ObserveRun(s, runId, status, order).0;
            && Owned(oracle, t) && Grows(s, t) && t.sessions == s.sessions && t.evidence == s.evidence
            && t.versions.Keys == s.versions.Keys
            && (forall r, o :: OwnedRun(s, r, o) ==> OwnedRun(t, r, o))
  {
    if status in TERMINAL {
      assert Keyed(s.versions) by { assert forall id | id in s.versions :: VersionOk(s, id); }
      ObserveRunIsPointwise(s, runId, status, order);
      hide ObserveRun, Owned, Grows, OwnedRun, OnlyVersionsDiffer, PartlyObserved;
      ObservedVersionsOwned(oracle, s, ObserveRun(s, runId, status, order).0, runId, status);
    }
  }

  lemma SubmittedNow(s: State, task: Task, runId: string)
    requires task.versionId in s.versions
    ensures SubmittedFor(Log(s, Submission(task, runId)), runId, task.versionId)
  {
    var t := Log(s, Submission(task, runId));
    assert SubmittedAt(t.history, |s.history|, runId, task.versionId);
  }

  /** A submission: one event, and at most the version's own record and the run's owner change. */
  lemma SubmissionOwned(oracle: string -> string, s: State, t: State, task: Task, runId: string)
    requires Owned(oracle, s) && task.versionId in s.versions && NamedTask(task) && runId == oracle(task.taskId)
    requires t.history == s.history + [Submission(task, runId)]
    requires t.sessions == s.sessions && t.evidence == s.evidence
    requires forall k | k in t.rows.owners && k != runId :: k in s.rows.owners && t.rows.owners[k] == s.rows.owners[k]
    requires s.rows.owners.Keys <= t.rows.owners.Keys && (task.GdsTask? ==> runId in t.rows.owners)
    requires runId in t.rows.owners ==>
               || (runId in s.rows.owners && t.rows.owners[runId] == s.rows.owners[runId])
               || t.rows.owners[runId] == SessionOwner(s, task.versionId)
    requires t.versions.Keys == s.versions.Keys
    requires forall id | id in s.versions && id != task.versionId :: t.versions[id] == s.versions[id]
    requires var v, w := s.versions[task.versionId], t.versions[task.versionId];
             && w.versionId == v.versionId && w.specId == v.specId
             && (w.verificationRunId == v.verificationRunId || w.verificationRunId == Some(runId))
             && (w.simulationRunId == v.simulationRunId || w.simulationRunId == Some(runId))
    ensures Owned(oracle, t)
  {
    hide NamedTask, SubmittedFor, Owned;
    var id := task.versionId;
    assert VersionOk(s, id) by { OwnedVersion(oracle, s, id); }
    SubmittedNow(s, task, runId);
    assert Grows(s, t);
    RunsStayOwned(s, t);
    assert SubmittedFor(t, runId, id) by { SameHistory(Log(s, Submission(task, runId)), t, runId, id); }
    assert OwnedRun(t, runId, OwnerOfVersion(t, id));
    Advance(oracle, s, t);
  }

  function SessionOwner(s: State, versionId: string): string
    requires versionId in s.versions
  {
    var specId := s.versions[versionId].specId;
    if specId in s.sessions then s.sessions[specId].ownerId else ""
  }

  lemma OwnedVersion(oracle: string -> string, s: State, id: string)
    requires Owned(oracle, s) && id in s.versions
    ensures VersionOk(s, id)
  {
  }

  lemma SameHistory(s: State, t: State, runId: string, id: string)
    requires s.history == t.history && id in t.versions && SubmittedFor(s, runId, id)
    ensures SubmittedFor(t, runId, id)
  {
  }

  /** What the server's calls come with: no direct recording of results or evidence, replies of an execution
      service that answers a task id always with the same run, and run records naming the run's own task. */
  predicate Served(oracle: string -> string, op: Op) {
    match op
    case Verify(id, _, v2) => v2.Accepted? ==> v2.runId == oracle(VerifyTaskId(id))
    case Simulate(id, _, v2) => v2.Accepted? ==> v2.runId == oracle(SimulateTaskId(id))
    case Gds(id, pdk, _, v2) => v2.Accepted? ==> v2.runId == oracle(GdsTaskId(id, pdk))
    case Request(_, runId, run, _, _, _) => oracle(run.taskId) == runId
    case Judge(_, _, _, _, _, _) => false
    case AddEvidence(_) => false
    case SetVerification(_, _, _) => false
    case SetSimulation(_, _, _) => false
    case _ => true
  }

  lemma VerifyOwned(oracle: string -> string, s: State, id: string, admitted: bool, v2: V2Reply)
    requires Owned(oracle, s) && (v2.Accepted? ==> v2.runId == oracle(VerifyTaskId(id)))
    ensures Owned(oracle, SubmitVerification(s, id, admitted, v2).0)
    ensures SubmitVerification(s, id, admitted, v2).0.sessions == s.sessions
  {
    hide Owned, RTLVersion.Valid, EncodeVersion;
    var built := BuildVerification(s, id, admitted);
    if built.Return? && RunOf(v2).Some? {
      OwnedVersion(oracle, s, id);
      hide VersionOk, BuildVerification;
      SubmissionOwned(oracle, s, SubmitVerification(s, id, admitted, v2).0, built.value, v2.runId);
    }
  }

  lemma SimulateOwned(oracle: string -> string, s: State, id: string, admitted: bool, v2: V2Reply)
    requires Owned(oracle, s) && (v2.Accepted? ==> v2.runId == oracle(SimulateTaskId(id)))
    ensures Owned(oracle, SubmitSimulation(s, id, admitted, v2).0)
    ensures SubmitSimulation(s, id, admitted, v2).0.sessions == s.sessions
  {
    hide Owned, RTLVersion.Valid, EncodeVersion, OracleOf;
    var built := BuildSimulation(s, id, admitted);
    if built.Return? && RunOf(v2).Some? {
      OwnedVersion(oracle, s, id);
      SubmissionOwned(oracle, s, SubmitSimulation(s, id, admitted, v2).0, built.value, v2.runId);
    }
  }

  lemma GdsOwned(oracle: string -> string, env: Env, s: State, id: string, pdk: string, admitted: bool, v2: V2Reply)
    requires Owned(oracle, s) && (v2.Accepted? ==> v2.runId == oracle(GdsTaskId(id, pdk)))
    ensures Owned(oracle, SubmitGds(env, s, id, pdk, admitted, v2).0)
    ensures SubmitGds(env, s, id, pdk, admitted, v2).0.sessions == s.sessions
  {
    hide Owned, Fingerprint;
    var built := BuildGds(env, s, id, pdk, admitted);
    if built.Return? && RunOf(v2).Some? {
      OwnedVersion(oracle, s, id);
      assert Free("nangate45", '-');
      SubmissionOwned(oracle, s, SubmitGds(env, s, id, pdk, admitted, v2).0, built.value, v2.runId);
    }
  }

  lemma AddOwned(oracle: string -> string, s: State, v: RTLVersion)
    requires Owned(oracle, s) && v.versionId !in s.versions && v.specId in s.sessions
    requires v.verificationRunId.None? && v.simulationRunId.None?
    ensures Owned(oracle, AddVersion(s, v).0) && AddVersion(s, v).0.sessions == s.sessions
  {
    hide Owned, RTLVersion.Valid, EncodeVersion, NamedTask, SubmittedFor, OwnedRun;
    Advance(oracle, s, AddVersion(s, v).0);
  }

  lemma WithdrawOwned(oracle: string -> string, s: State, t: State, id: string)
    requires Owned(oracle, s) && id in s.versions
    requires t.versions == s.versions[id := Withdrawn(s.versions[id])] && t.history == s.history + [Edited(id)]
    requires t.sessions == s.sessions && t.evidence == s.evidence && t.rows.owners == s.rows.owners
    ensures Owned(oracle, t)
  {
    OwnedVersion(oracle, s, id);
    hide Owned, NamedTask, SubmittedFor, OwnedRun;
    Advance(oracle, s, t);
  }

  lemma CreateOwned(oracle: string -> string, env: Env, s: State, uuid: string, specId: string, source: string,
                    generator: string, parent: Option<string>, sourceRef: Option<string>)
    requires Owned(oracle, s) && "rtl-" + uuid !in s.versions
    ensures var t := CreateVersion(env, s, uuid, specId, source, generator, parent, sourceRef).0;
            Owned(oracle, t) && t.sessions == s.sessions
  {
    hide Owned, AddVersion, RTLVersion.Valid, NonBlank, EncodeVersion;
    var v := NewVersion(env, uuid, specId, source, generator, parent, sourceRef);
    if specId in s.sessions {
      AddOwned(oracle, s, v);
      if parent.Some? && parent.value in s.versions {
        OwnedVersion(oracle, s, parent.value);
        var withdrawn := Withdrawn(s.versions[parent.value]);
        WithdrawOwned(oracle, s, Log(KeepVersion(s, withdrawn), Edited(parent.value)), parent.value);
        WithdrawOwned(oracle, s, Log(PutVersion(s, withdrawn), Edited(parent.value)), parent.value);
        AddOwned(oracle, Log(PutVersion(s, withdrawn), Edited(parent.value)), v);
      }
    }
  }

  /** The version read off the task id of a GDS run is the one the run was submitted for. */
  lemma TaskNamesItsVersion(oracle: string -> string, s: State, runId: string, id: string, taskId: string)
    requires Injective(oracle) && Owned(oracle, s) && SubmittedFor(s, runId, id) && oracle(taskId) == runId
    requires GDS_PREFIX <= taskId
    ensures TaskVersion(taskId) == id
  {
    var n: nat :| SubmittedAt(s.history, n, runId, id);
    var task := s.history[n].task;
    assert EventOk(oracle, s, s.history[n]);
    assert task.taskId == taskId;
    hide Owned, Injective;
    TaskIdPrefixes(task);
    GdsTaskIdParses(id, task.pdk);
  }

  /** The verdict of a GDS run is filed under the version the run was submitted for. */
  lemma VerdictOwned(oracle: string -> string, env: Env, s: State, runId: string, owner: string, run: RunRecord,
                     now: string)
    requires Injective(oracle) && Owned(oracle, s) && OwnedRun(s, runId, owner) && oracle(run.taskId) == runId
    requires GDS_PREFIX <= run.taskId
    ensures var t := RecordGdsEvidence(env, s, TaskVersion(run.taskId), runId, run.artifacts, TaskPdk(run.taskId),
                                       run.metrics, now).0;
            Owned(oracle, t) && t.sessions == s.sessions
  {
    hide Owned, RecordGdsEvidence, SubmittedFor, TaskVersion, TaskPdk, Injective, EventOk, VersionOk, Grows;
    var id :| SubmittedFor(s, runId, id) && id in s.versions && s.versions[id].specId in s.sessions
              && OwnerOfVersion(s, id) == owner by { OwnedRunHasVersion(s, runId, owner); }
    TaskNamesItsVersion(oracle, s, runId, id, run.taskId);
    var t := RecordGdsEvidence(env, s, id, runId, run.artifacts, TaskPdk(run.taskId), run.metrics, now).0;
    VerdictFrame(env, s, id, runId, run.artifacts, TaskPdk(run.taskId), run.metrics, now);
    assert Grows(s, t) by { SameGrows(s, t); }
    RunsStayOwned(s, t);
    hide OwnedRun;
    Advance(oracle, s, t);
  }

  lemma OwnedRunHasVersion(s: State, runId: string, owner: string)
    requires OwnedRun(s, runId, owner)
    ensures exists id :: SubmittedFor(s, runId, id) && id in s.versions && s.versions[id].specId in s.sessions
                         && OwnerOfVersion(s, id) == owner
  {
  }

  lemma SameGrows(s: State, t: State)
    requires t == s.(evidence := t.evidence, outcomes := t.outcomes, rows := t.rows) && t.rows.owners == s.rows.owners
    ensures Grows(s, t)
  {
  }

  /** New evidence names the run and the session owner of the version. */
  predicate EvidenceNames(s: State, t: State, id: string, runId: string) {
    forall k | k in t.evidence && !(k in s.evidence && t.evidence[k] == s.evidence[k]) ::
      && t.evidence[k].runId == runId && id in s.versions && s.versions[id].specId in s.sessions
      && t.evidence[k].ownerId == OwnerOfVersion(s, id)
  }

  lemma EvidenceFrame(env: Env, s: State, e: EvidenceRef)
    ensures var (t, r) := RecordEvidence(env, s, e);
            && t == s.(evidence := t.evidence, rows := t.rows) && t.rows.owners == s.rows.owners
            && (t.evidence == s.evidence || t.evidence == s.evidence[e.evidenceId := e])
  {
    hide EvidenceRef.Valid, IsGdsSuccess, HasGdsArtifact, EncodeEvidence;
  }

  lemma GdsEvidenceNames(env: Env, s: State, id: string, runId: string, artifacts: seq<Artifact>, pdk: string,
                         now: string)
    ensures var e := GdsEvidence(env, s, id, runId, artifacts, pdk, now);
            e.Some? ==> && e.value.runId == runId && id in s.versions && s.versions[id].specId in s.sessions
                        && e.value.ownerId == OwnerOfVersion(s, id)
  {
    hide KindRefs, Snapshot, Protocol, Strings;
  }

  /** A verdict adds at most one evidence record. */
  lemma VerdictFrame(env: Env, s: State, id: string, runId: string, artifacts: seq<Artifact>, pdk: string,
                     metrics: seq<bool>, now: string)
    ensures var t := RecordGdsEvidence(env, s, id, runId, artifacts, pdk, metrics, now).0;
            && t == s.(evidence := t.evidence, outcomes := t.outcomes, rows := t.rows)
            && t.rows.owners == s.rows.owners && EvidenceNames(s, t, id, runId)
  {
    hide M1RunOutcome.Valid, Missing, GdsOutcome, GdsEvidence, RecordEvidence, EncodeOutcome;
    var e := GdsEvidence(env, s, id, runId, artifacts, pdk, now);
    GdsEvidenceNames(env, s, id, runId, artifacts, pdk, now);
    if e.Some? { EvidenceFrame(env, s, e.value); }
  }

  lemma AllowedRunIsOwned(oracle: string -> string, s: State, runId: string, owner: string, order: seq<string>,
                          evidenceOrder: seq<string>)
    requires Owned(oracle, s) && Enumerates(order, s.versions) && Enumerates(evidenceOrder, s.evidence)
    ensures var found := OwnerOf(s, runId, order, evidenceOrder); found.Some? ==> OwnedRun(s, runId, found.value)
  {
    var carrier := CarrierOf(s, runId, order);
    if runId in s.rows.owners {
      assert OwnedRun(s, runId, s.rows.owners[runId]);
    } else if carrier.Some? {
      assert VersionOk(s, carrier.value) && SubmittedFor(s, runId, carrier.value);
    } else {
      EvidenceOwnerIsOwner(oracle, s, runId, evidenceOrder);
    }
  }

  lemma {:induction false} EvidenceOwnerIsOwner(oracle: string -> string, s: State, runId: string, order: seq<string>)
    requires Owned(oracle, s) && forall i | 0 <= i < |order| :: order[i] in s.evidence
    ensures var found := OwnerByEvidence(s, runId, order); found.Some? ==> OwnedRun(s, runId, found.value)
    decreases |order|
  {
    if order != [] {
      assert OwnedRun(s, s.evidence[order[0]].runId, s.evidence[order[0]].ownerId);
      EvidenceOwnerIsOwner(oracle, s, runId, order[1..]);
    }
    hide Owned, OwnedRun;
  }

  lemma {:induction false} NoEvidenceNames(s: State, runId: string, order: seq<string>)
    requires forall i | 0 <= i < |order| :: order[i] in s.evidence
    ensures OwnerByEvidence(s, runId, order).None?
      <==> forall i | 0 <= i < |order| :: s.evidence[order[i]].runId != runId
    decreases |order|
  {
    if order != [] {
      var rest := order[1..];
      assert forall i | 0 <= i < |rest| :: rest[i] == order[i + 1];
      NoEvidenceNames(s, runId, rest);
      assert forall i | 1 <= i < |order| :: order[i] == rest[i - 1];
    }
  }

  lemma RequestOwned(oracle: string -> string, env: Env, s: State, op: Op)
    requires Injective(oracle) && Owned(oracle, s) && Possible(s, op) && op.Request? && Served(oracle, op)
    ensures Owned(oracle, Step(env, s, op).0) && Step(env, s, op).0.sessions == s.sessions
  {
    hide Owned, ObserveRun, RecordGdsEvidence, OwnerOf, Injective, OwnedRun, TaskVersion, TaskPdk, Grows;
    AllowedRunIsOwned(oracle, s, op.runId, op.owner, op.order, op.evidenceOrder);
    ObserveOwned(oracle, s, op.runId, op.run.status, op.order);
    var allowed := AssertRunOwner(s, op.runId, op.owner, op.order, op.evidenceOrder);
    if allowed.Return? && GDS_PREFIX <= op.run.taskId {
      var t := ObserveRun(s, op.runId, op.run.status, op.order).0;
      VerdictOwned(oracle, env, t, op.runId, op.owner, op.run, op.now);
    }
  }

  // ----- direct recordings -----

  /** A call that ownership survives: one of the server's, or a direct recording that is refused, or that names a run
      which was submitted for the version it is recorded for. */
  ghost predicate Harmless(oracle: string -> string, env: Env, s: State, op: Op) {
    match op
    case SetVerification(id, result, runId) =>
      RecordVerification(s, id, result, runId).1.Return? ==> SubmittedFor(s, runId, id)
    case SetSimulation(id, result, runId) =>
      RecordSimulation(s, id, result, runId).1.Return? ==> SubmittedFor(s, runId, id)
    case AddEvidence(e) => RecordEvidence(env, s, e).1.Return? ==> OwnedRun(s, e.runId, e.ownerId)
    case Judge(id, runId, _, _, _, _) => SubmittedFor(s, runId, id)
    case _ => Served(oracle, op)
  }

  lemma ServedIsHarmless(oracle: string -> string, env: Env, s: State, op: Op)
    requires Served(oracle, op)
    ensures Harmless(oracle, env, s, op)
  {
  }

  ghost predicate AllHarmless(oracle: string -> string, env: Env, s: State, ops: seq<Op>)
    requires PossibleRun(env, s, ops)
    decreases |ops|
  {
    ops == [] || (Harmless(oracle, env, s, ops[0]) && AllHarmless(oracle, env, Step(env, s, ops[0]).0, ops[1..]))
  }

  lemma {:induction false} ServedHistoriesAreHarmless(oracle: string -> string, env: Env, s: State, ops: seq<Op>)
    requires PossibleRun(env, s, ops) && forall i | 0 <= i < |ops| :: Served(oracle, ops[i])
    ensures AllHarmless(oracle, env, s, ops)
    decreases |ops|
  {
    hide Step, Possible, Served, Harmless;
    if ops != [] {
      ServedIsHarmless(oracle, env, s, ops[0]);
      ServedHistoriesAreHarmless(oracle, env, Step(env, s, ops[0]).0, ops[1..]);
    }
  }

  /** The record a direct recording replaces; everything ownership reads besides is as it was. */
  lemma RecordingFrame(s: State, id: string, status: CheckStatus, runId: string)
    ensures var (t, r) := RecordVerification(s, id, status, runId);
            if r.Raise? then t == s
            else t == PutVersion(s, s.versions[id].(verificationStatus := status, verificationRunId := Some(runId)))
    ensures var (t, r) := RecordSimulation(s, id, status, runId);
            if r.Raise? then t == s
            else t == PutVersion(s, s.versions[id].(simulationStatus := status, simulationRunId := Some(runId)))
    ensures RecordVerification(s, id, status, runId).1.Return? ==> id in s.versions
    ensures RecordSimulation(s, id, status, runId).1.Return? ==> id in s.versions
  {
    hide RTLVersion.Valid, PutVersion;
  }

  /** Replacing a version's record by one with another run in one place keeps ownership exactly when that run was
      submitted for the version. */
  lemma ReplacedOwnedExactly(oracle: string -> string, s: State, id: string, w: RTLVersion, runId: string)
    requires Owned(oracle, s) && id in s.versions
    requires var v := s.versions[id];
             && w.versionId == v.versionId && w.specId == v.specId
             && (w.verificationRunId == Some(runId) || w.verificationRunId == v.verificationRunId)
             && (w.simulationRunId == Some(runId) || w.simulationRunId == v.simulationRunId)
             && (w.verificationRunId == Some(runId) || w.simulationRunId == Some(runId))
    ensures Owned(oracle, PutVersion(s, w)) <==> SubmittedFor(s, runId, id)
  {
    OwnedVersion(oracle, s, id);
    hide NamedTask, Owned, EncodeVersion, OwnedRun, EventOk;
    var t := PutVersion(s, w);
    assert t.history == s.history && t.versions == s.versions[id := w] && t.sessions == s.sessions;
    assert forall r :: SubmittedFor(t, r, id) <==> SubmittedFor(s, r, id) by { hide VersionOk; }
    if SubmittedFor(s, runId, id) {
      assert VersionOk(t, id) by { hide SubmittedFor; }
      hide VersionOk, SubmittedFor;
      Advance(oracle, s, t);
    }
    if Owned(oracle, t) {
      OwnedVersion(oracle, t, id);
      hide SubmittedFor;
    }
  }

  /** Main result: a direct recording that returns keeps the ownership of runs if and only if it names a run that was
      submitted for the version. */
  lemma RecordingsOwnedExactly(oracle: string -> string, s: State, id: string, status: CheckStatus, runId: string)
    requires Owned(oracle, s)
    ensures RecordVerification(s, id, status, runId).1.Return? ==>
              (Owned(oracle, RecordVerification(s, id, status, runId).0) <==> SubmittedFor(s, runId, id))
    ensures RecordSimulation(s, id, status, runId).1.Return? ==>
              (Owned(oracle, RecordSimulation(s, id, status, runId).0) <==> SubmittedFor(s, runId, id))
  {
    RecordingFrame(s, id, status, runId);
    hide Owned, SubmittedFor, PutVersion, RecordVerification, RecordSimulation;
    if id in s.versions {
      var v := s.versions[id];
      ReplacedOwnedExactly(oracle, s, id, v.(verificationStatus := status, verificationRunId := Some(runId)), runId);
      ReplacedOwnedExactly(oracle, s, id, v.(simulationStatus := status, simulationRunId := Some(runId)), runId);
    }
  }

  lemma RecordingsOwned(oracle: string -> string, env: Env, s: State, op: Op)
    requires Owned(oracle, s) && (op.SetVerification? || op.SetSimulation?) && Harmless(oracle, env, s, op)
    ensures var t := (if op.SetVerification? then RecordVerification(s, op.versionId, op.result, op.runId)
                      else RecordSimulation(s, op.versionId, op.result, op.runId)).0;
            Owned(oracle, t) && t.sessions == s.sessions
  {
    RecordingFrame(s, op.versionId, op.result, op.runId);
    RecordingsOwnedExactly(oracle, s, op.versionId, op.result, op.runId);
    hide Owned, SubmittedFor, RecordVerification, RecordSimulation, EncodeVersion;
  }

  lemma EvidenceOwned(oracle: string -> string, env: Env, s: State, e: EvidenceRef)
    requires Owned(oracle, s) && (RecordEvidence(env, s, e).1.Return? ==> OwnedRun(s, e.runId, e.ownerId))
    ensures var t := RecordEvidence(env, s, e).0; Owned(oracle, t) && t.sessions == s.sessions
  {
    EvidenceFrame(env, s, e);
    RefusedEvidence(env, s, e);
    hide RecordEvidence, Owned, OwnedRun, EventOk, VersionOk;
    var t := RecordEvidence(env, s, e).0;
    assert Grows(s, t) by { SameGrows(s, t); }
    hide Grows;
    RunsStayOwned(s, t);
    Advance(oracle, s, t);
  }

  lemma RefusedEvidence(env: Env, s: State, e: EvidenceRef)
    ensures RecordEvidence(env, s, e).1.Raise? ==> RecordEvidence(env, s, e).0 == s
  {
    hide EvidenceRef.Valid, IsGdsSuccess, HasGdsArtifact;
  }

  lemma JudgeOwned(oracle: string -> string, env: Env, s: State, op: Op)
    requires Owned(oracle, s) && op.Judge? && SubmittedFor(s, op.runId, op.versionId)
    ensures var t := RecordGdsEvidence(env, s, op.versionId, op.runId, op.artifacts, op.pdk, op.metrics, op.now).0;
            Owned(oracle, t) && t.sessions == s.sessions
  {
    hide Owned, RecordGdsEvidence, SubmittedFor, EventOk, VersionOk, Grows;
    var t := RecordGdsEvidence(env, s, op.versionId, op.runId, op.artifacts, op.pdk, op.metrics, op.now).0;
    VerdictFrame(env, s, op.versionId, op.runId, op.artifacts, op.pdk, op.metrics, op.now);
    assert Grows(s, t) by { SameGrows(s, t); }
    RunsStayOwned(s, t);
    assert op.versionId in s.versions && s.versions[op.versionId].specId in s.sessions ==>
      OwnedRun(s, op.runId, OwnerOfVersion(s, op.versionId));
    hide OwnedRun;
    Advance(oracle, s, t);
  }

  lemma StepOwned(oracle: string -> string, env: Env, s: State, op: Op)
    requires Injective(oracle) && Owned(oracle, s) && KeyedSessions(s) && Possible(s, op)
    requires Harmless(oracle, env, s, op)
    ensures Owned(oracle, Step(env, s, op).0) && KeyedSessions(Step(env, s, op).0)
  {
    if op.Assess? || op.Freeze? || op.Register? {
      SpecificationsOwned(oracle, env, s, op);
    } else if op.SetVerification? || op.SetSimulation? {
      RecordingsOwned(oracle, env, s, op);
      hide Owned, RecordVerification, RecordSimulation, KeyedSessions, Harmless;
      KeyedBySessions(s, Step(env, s, op).0);
    } else if op.Judge? || op.AddEvidence? {
      if op.Judge? { JudgeOwned(oracle, env, s, op); } else { EvidenceOwned(oracle, env, s, op.evidence); }
      hide Owned, RecordGdsEvidence, RecordEvidence, KeyedSessions, Harmless;
      KeyedBySessions(s, Step(env, s, op).0);
    } else if op.Request? {
      RequestOwned(oracle, env, s, op);
    } else {
      hide Owned, CreateVersion, SubmitVerification, SubmitSimulation, SubmitGds, ObserveRun, KeyedSessions, Injective;
      match op {
        case Create(uuid, specId, source, generator, parent, sourceRef) =>
          CreateOwned(oracle, env, s, uuid, specId, source, generator, parent, sourceRef);
        case Verify(id, admitted, v2) => VerifyOwned(oracle, s, id, admitted, v2);
        case Simulate(id, admitted, v2) => SimulateOwned(oracle, s, id, admitted, v2);
        case Gds(id, pdk, admitted, v2) => GdsOwned(oracle, env, s, id, pdk, admitted, v2);
        case Observe(runId, status, order) => ObserveOwned(oracle, s, runId, status, order);
      }
      KeyedBySessions(s, Step(env, s, op).0);
    }
  }

  lemma KeyedBySessions(s: State, t: State)
    requires KeyedSessions(s) && t.sessions == s.sessions
    ensures KeyedSessions(t)
  {
  }

  lemma {:induction false} RunOwned(oracle: string -> string, env: Env, s: State, ops: seq<Op>)
    requires Injective(oracle) && Owned(oracle, s) && KeyedSessions(s) && PossibleRun(env, s, ops)
    requires AllHarmless(oracle, env, s, ops)
    ensures Owned(oracle, Run(env, s, ops))
    decreases |ops|
  {
    hide Owned, Step, Possible, Harmless, Injective, KeyedSessions;
    if ops != [] {
      StepOwned(oracle, env, s, ops[0]);
      RunOwned(oracle, env, Step(env, s, ops[0]).0, ops[1..]);
    }
  }

  /** Main result: in every state reached by the server's calls and harmless recordings, a run is let through for an
      owner only if it was submitted for a version of a session of that owner, and refused to an owner only if it was
      submitted for another one's. */
  lemma OnlyTheOwnerIsLetThrough(oracle: string -> string, env: Env, ops: seq<Op>, runId: string, owner: string,
                                 order: seq<string>, evidenceOrder: seq<string>)
    requires Injective(oracle) && PossibleRun(env, EMPTY, ops)
    requires AllHarmless(oracle, env, EMPTY, ops)
    requires Enumerates(order, Run(env, EMPTY, ops).versions)
             && Enumerates(evidenceOrder, Run(env, EMPTY, ops).evidence)
    ensures var s := Run(env, EMPTY, ops);
            var r := AssertRunOwner(s, runId, owner, order, evidenceOrder);
            && (r.Return? ==> OwnedRun(s, runId, owner))
            && (r == Raise(PermissionError) ==> !OwnedRun(s, runId, owner) && exists other :: OwnedRun(s, runId, other))
  {
    hide Owned, Step, Possible, Run, Enumerates, OwnerOf, OwnedRun, Injective, Harmless, AllHarmless, PossibleRun;
    assert Owned(oracle, EMPTY) && KeyedSessions(EMPTY) by { EmptyIsOwned(oracle); }
    RunOwned(oracle, env, EMPTY, ops);
    var s := Run(env, EMPTY, ops);
    AllowedRunIsOwned(oracle, s, runId, owner, order, evidenceOrder);
    var found := OwnerOf(s, runId, order, evidenceOrder);
    if found.Some? && OwnedRun(s, runId, owner) {
      OneOwnerPerRun(oracle, s, runId, owner, found.value);
    }
  }

  /** The service can tell whose run it is: it stored the owner, or a version carries the run, or evidence names it. */
  predicate Known(s: State, runId: string) {
    || runId in s.rows.owners
    || (exists id | id in s.versions :: Carries(s.versions[id], runId))
    || (exists k | k in s.evidence :: s.evidence[k].runId == runId)
  }

  /** Main result: in every such state the check answers exactly: it returns if and only if the run is known
      and the owner's, and its two errors tell an unknown run from another's. */
  lemma TheCheckIsExact(oracle: string -> string, env: Env, ops: seq<Op>, runId: string, owner: string,
                        order: seq<string>, evidenceOrder: seq<string>)
    requires Injective(oracle) && PossibleRun(env, EMPTY, ops)
    requires AllHarmless(oracle, env, EMPTY, ops)
    requires Enumerates(order, Run(env, EMPTY, ops).versions)
             && Enumerates(evidenceOrder, Run(env, EMPTY, ops).evidence)
    ensures var s := Run(env, EMPTY, ops);
            var r := AssertRunOwner(s, runId, owner, order, evidenceOrder);
            && (r.Return? <==> Known(s, runId) && OwnedRun(s, runId, owner))
            && (r == Raise(PermissionError) <==> Known(s, runId) && !OwnedRun(s, runId, owner))
            && (r == Raise(KeyError) <==> !Known(s, runId))
  {
    hide Owned, Step, Possible, Run, Enumerates, OwnerOf, OwnedRun, Injective, Harmless, AllHarmless, PossibleRun;
    EmptyIsOwned(oracle);
    RunOwned(oracle, env, EMPTY, ops);
    var s := Run(env, EMPTY, ops);
    AllowedRunIsOwned(oracle, s, runId, owner, order, evidenceOrder);
    WhenFound(oracle, s, runId, order, evidenceOrder);
    var found := OwnerOf(s, runId, order, evidenceOrder);
    if found.Some? && OwnedRun(s, runId, owner) {
      OneOwnerPerRun(oracle, s, runId, owner, found.value);
    }
  }

  lemma EmptyIsOwned(oracle: string -> string)
    ensures Owned(oracle, EMPTY) && KeyedSessions(EMPTY)
  {
  }

  /** Main result: the answer does not depend on the order in which the dictionaries are searched. */
  lemma OrderDoesNotMatter(oracle: string -> string, env: Env, ops: seq<Op>, runId: string, owner: string,
                           order: seq<string>, evidenceOrder: seq<string>, order2: seq<string>,
                           evidenceOrder2: seq<string>)
    requires Injective(oracle) && PossibleRun(env, EMPTY, ops)
    requires AllHarmless(oracle, env, EMPTY, ops)
    requires Enumerates(order, Run(env, EMPTY, ops).versions)
             && Enumerates(evidenceOrder, Run(env, EMPTY, ops).evidence)
    requires Enumerates(order2, Run(env, EMPTY, ops).versions)
             && Enumerates(evidenceOrder2, Run(env, EMPTY, ops).evidence)
    ensures var s := Run(env, EMPTY, ops);
            AssertRunOwner(s, runId, owner, order, evidenceOrder)
              == AssertRunOwner(s, runId, owner, order2, evidenceOrder2)
  {
    hide Owned, Step, Possible, Run, OwnedRun, Injective, Harmless, AllHarmless, PossibleRun;
    EmptyIsOwned(oracle);
    RunOwned(oracle, env, EMPTY, ops);
    var s := Run(env, EMPTY, ops);
    AllowedRunIsOwned(oracle, s, runId, owner, order, evidenceOrder);
    AllowedRunIsOwned(oracle, s, runId, owner, order2, evidenceOrder2);
    var a, b := OwnerOf(s, runId, order, evidenceOrder), OwnerOf(s, runId, order2, evidenceOrder2);
    if a.Some? && b.Some? { OneOwnerPerRun(oracle, s, runId, a.value, b.value); }
    FoundInAnyOrder(oracle, s, runId, order, evidenceOrder, order2, evidenceOrder2);
  }

  lemma FoundInAnyOrder(oracle: string -> string, s: State, runId: string, order: seq<string>,
                        evidenceOrder: seq<string>, order2: seq<string>, evidenceOrder2: seq<string>)
    requires Owned(oracle, s) && Enumerates(order, s.versions) && Enumerates(evidenceOrder, s.evidence)
    requires Enumerates(order2, s.versions) && Enumerates(evidenceOrder2, s.evidence)
    ensures OwnerOf(s, runId, order, evidenceOrder).Some? <==> OwnerOf(s, runId, order2, evidenceOrder2).Some?
  {
    WhenFound(oracle, s, runId, order, evidenceOrder);
    WhenFound(oracle, s, runId, order2, evidenceOrder2);
  }

  lemma WhenFound(oracle: string -> string, s: State, runId: string, order: seq<string>, evidenceOrder: seq<string>)
    requires Owned(oracle, s) && Enumerates(order, s.versions) && Enumerates(evidenceOrder, s.evidence)
    ensures OwnerOf(s, runId, order, evidenceOrder).Some? <==> Known(s, runId)
  {
    hide Owned, Enumerates, OwnerByEvidence, CarrierOf, Carries;
    CarrierFound(oracle, s, runId, order);
    EvidenceFound(oracle, s, runId, evidenceOrder);
  }

  lemma CarrierFound(oracle: string -> string, s: State, runId: string, order: seq<string>)
    requires Owned(oracle, s) && Enumerates(order, s.versions)
    ensures var c := CarrierOf(s, runId, order);
            && (c.Some? <==> exists id | id in s.versions :: Carries(s.versions[id], runId))
            && (c.Some? ==> c.value in s.versions && s.versions[c.value].specId in s.sessions)
  {
    CarrierInOrder(s, runId, order);
    hide Enumerates, SubmittedFor;
    var carrier := CarrierOf(s, runId, order);
    if carrier.Some? { OwnedVersion(oracle, s, carrier.value); }
    hide Owned, CarrierOf;
  }

  lemma EvidenceFound(oracle: string -> string, s: State, runId: string, order: seq<string>)
    requires Owned(oracle, s) && Enumerates(order, s.evidence)
    ensures OwnerByEvidence(s, runId, order).Some? <==> exists k | k in s.evidence :: s.evidence[k].runId == runId
  {
    NoEvidenceNames(s, runId, order);
    EvidenceInOrder(s, runId, order);
    hide Owned, OwnerByEvidence, Enumerates;
  }

  lemma CarrierInOrder(s: State, runId: string, order: seq<string>)
    requires Enumerates(order, s.versions)
    ensures CarrierOf(s, runId, order).None? <==> forall id | id in s.versions :: !Carries(s.versions[id], runId)
  {
    assert forall id | id in s.versions :: exists i :: 0 <= i < |order| && order[i] == id;
  }

  lemma EvidenceInOrder(s: State, runId: string, order: seq<string>)
    requires Enumerates(order, s.evidence)
    ensures (forall i | 0 <= i < |order| :: s.evidence[order[i]].runId != runId)
      <==> forall k | k in s.evidence :: s.evidence[k].runId != runId
  {
    assert forall k | k in s.evidence :: exists i :: 0 <= i < |order| && order[i] == k;
  }

  /** Main result: for a submitted GDS run the check lets exactly the owner through. */
  lemma GdsRunsAreOpenToExactlyTheirOwner(oracle: string -> string, env: Env, ops: seq<Op>, n: nat, owner: string,
                                          order: seq<string>, evidenceOrder: seq<string>)
    requires Injective(oracle) && PossibleRun(env, EMPTY, ops)
    requires AllHarmless(oracle, env, EMPTY, ops)
    requires Enumerates(order, Run(env, EMPTY, ops).versions)
             && Enumerates(evidenceOrder, Run(env, EMPTY, ops).evidence)
    requires var h := Run(env, EMPTY, ops).history; n < |h| && h[n].Submission? && h[n].task.GdsTask?
    ensures var s := Run(env, EMPTY, ops); var e := s.history[n];
            && e.task.versionId in s.versions && s.versions[e.task.versionId].specId in s.sessions
            && (AssertRunOwner(s, e.runId, owner, order, evidenceOrder).Return?
                <==> owner == OwnerOfVersion(s, e.task.versionId))
  {
    hide Step, Possible, Run, Injective, Harmless, AllHarmless, PossibleRun;
    EmptyIsOwned(oracle);
    RunOwned(oracle, env, EMPTY, ops);
    var s := Run(env, EMPTY, ops);
    var e := s.history[n];
    assert EventOk(oracle, s, e) && VersionOk(s, e.task.versionId);
    assert SubmittedAt(s.history, n, e.runId, e.task.versionId);
    assert OwnedRun(s, e.runId, OwnerOfVersion(s, e.task.versionId));
    OneOwnerPerRun(oracle, s, e.runId, OwnerOfVersion(s, e.task.versionId), s.rows.owners[e.runId]);
  }
}
