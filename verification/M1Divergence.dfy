/** Histories from the empty service: one that makes a version ready, two after which dictionaries and rows hold
    different records, and two in which a direct recording breaks what the server's own calls keep. */
module M1Divergence {
  import opened Wrappers
  import opened Text
  import opened Values
  import opened Contracts
  import opened M1Model
  import opened M1WriteThrough
  import opened M1Ownership
  import opened M1Progress
  import opened M1Verdict

  const SPEC_ID := "spec-" + "u"
  const VERSION_ID := "rtl-" + "r"

  const SPEC := SpecIR("s", "d", "t", "f", "o", [PortSpec("a", "input", Some(1), 1)], None, None, map[], [], ["c"], 1)
  const PACKAGE := VerificationPackage("v", SPEC_ID, ["x"], ["source:" + "x"], Some("t"), [], map[], 1)
  const SESSION := M1Session(SPEC_ID, "o", Specified, Some(SPEC), [], None, None)

  /** A run id one character longer than the records allow. */
  const LONG_RUN: string := seq(161, i => 'a')

  function Assessing(spec: SpecIR): Op {
    Assess("u", "o", Some(spec), [], None)
  }

  const CREATING := Create("r", SPEC_ID, "x", "g", None, Some("input:" + "x"))

  // ----- the records are valid -----

  lemma SpecIsValid(constraints: map<string, Value>)
    ensures SPEC.(constraints := constraints).Valid() && IsBoundedId(SPEC_ID) && IsBoundedId("o")
  {
    assert !IsSpace("f"[0]) && !IsSpace("o"[0]) && !IsSpace("c"[0]);
    assert SPEC.ports[0].Valid();
  }

  lemma PackageIsValid()
    ensures PACKAGE.Valid() && OracleOf(PACKAGE).Some?
  {
    assert ("source:" + "x")[7..] == "x";
    assert "source:" <= "source:" + "x";
    assert ("source:" + "x")[0] != "artifact:"[0];
  }

  lemma VersionIsValid(env: Env)
    requires env.Lawful()
    ensures NewVersion(env, "r", SPEC_ID, "x", "g", None, Some("input:" + "x")).Valid()
  {
    SpecIsValid(map[]);
    assert "input:" <= "input:" + "x";
  }

  // ----- getting ready -----

  lemma Assessed()
    ensures var t := AssessSpec(EMPTY, "u", "o", Some(SPEC), [], None).0;
            && Untouched(t)
            && t.sessions == map[SPEC_ID := SESSION] && t.versions == map[] && t.packages == map[]
  {
    SpecIsValid(map[]);
    hide SpecIR.Valid, EncodeSession;
    assert SPEC.(constraints := map[]) == SPEC;
  }

  lemma NowFrozen(env: Env, s: State)
    requires env.Lawful() && s.sessions == map[SPEC_ID := SESSION]
    ensures var (t, r) := FreezeSpec(env, s, SPEC_ID);
            && t.versions == s.versions && t.packages == s.packages
            && (Untouched(s) ==> Untouched(t)) && t.sessions.Keys == {SPEC_ID} && t.sessions[SPEC_ID].ownerId == "o"
            && t.sessions[SPEC_ID].state == Frozen && t.sessions[SPEC_ID].spec == Some(SPEC)
  {
    SpecIsValid(map[]);
    hide SpecIR.Valid, EncodeSession, EncodeSpec;
    assert SPEC.(constraints := map[]) == SPEC;
  }

  lemma Registered(s: State)
    requires SPEC_ID in s.sessions && s.sessions[SPEC_ID].state == Frozen && s.packages == map[]
    ensures var t := RegisterPackage(s, SPEC_ID, PACKAGE).0;
            && t.versions == s.versions && t.sessions == s.sessions && t.packages == map[SPEC_ID := PACKAGE]
            && (Untouched(s) ==> Untouched(t))
  {
    PackageIsValid();
    hide VerificationPackage.Valid, EncodePackage;
  }

  lemma CreatedNow(env: Env, s: State)
    requires env.Lawful() && SPEC_ID in s.sessions && s.sessions[SPEC_ID].state == Frozen && s.versions == map[]
    ensures var t := CreateVersion(env, s, "r", SPEC_ID, "x", "g", None, Some("input:" + "x")).0;
            && t.sessions == s.sessions && t.packages == s.packages && (Untouched(s) ==> Untouched(t))
            && t.versions == map[VERSION_ID := NewVersion(env, "r", SPEC_ID, "x", "g", None, Some("input:" + "x"))]
  {
    VersionIsValid(env);
    assert NonBlank("x") by { assert !IsSpace("x"[0]); }
    hide RTLVersion.Valid, EncodeVersion, NonBlank;
  }

  /** The calls that make a version ready. */
  function Setup(): seq<Op> {
    [] + [Assessing(SPEC)] + [Freeze(SPEC_ID)] + [Register(SPEC_ID, PACKAGE)] + [CREATING]
  }

  lemma {:induction false} RunExtends(env: Env, s: State, ops: seq<Op>, op: Op)
    requires PossibleRun(env, s, ops) && Possible(Run(env, s, ops), op)
    ensures PossibleRun(env, s, ops + [op]) && Run(env, s, ops + [op]) == Step(env, Run(env, s, ops), op).0
    decreases |ops|
  {
    hide Possible, Step;
    if ops == [] {
      assert [] + [op] == [op] && [op][1..] == [];
    } else {
      assert (ops + [op])[1..] == ops[1..] + [op];
      RunExtends(env, Step(env, s, ops[0]).0, ops[1..], op);
    }
  }


  lemma {:induction false} DivergesExtends(env: Env, s: State, ops: seq<Op>, op: Op)
    requires PossibleRun(env, s, ops) && NeverDiverges(env, s, ops)
    requires Possible(Run(env, s, ops), op) && !Diverges(Run(env, s, ops), op)
    ensures PossibleRun(env, s, ops + [op]) && NeverDiverges(env, s, ops + [op])
    ensures Run(env, s, ops + [op]) == Step(env, Run(env, s, ops), op).0
    decreases |ops|
  {
    hide Possible, Step, Diverges;
    RunExtends(env, s, ops, op);
    if ops == [] {
      assert [] + [op] == [op] && [op][1..] == [];
    } else {
      assert (ops + [op])[1..] == ops[1..] + [op];
      DivergesExtends(env, Step(env, s, ops[0]).0, ops[1..], op);
    }
  }

  /** Main result: the service gets a version ready for its checks, so the gate is not passable in theory only. */
  lemma SetupIsReady(env: Env)
    requires env.Lawful()
    ensures PossibleRun(env, EMPTY, Setup()) && NeverDiverges(env, EMPTY, Setup())
    ensures var s := Run(env, EMPTY, Setup());
            && Ready(s, VERSION_ID) && s.versions.Keys == {VERSION_ID} && !Carries(s.versions[VERSION_ID], "v")
            && s.versions[VERSION_ID].verificationStatus == NotRun && s.versions[VERSION_ID].specId == SPEC_ID
            && SPEC_ID in s.sessions && s.sessions[SPEC_ID].ownerId == "o" && Untouched(s)
  {
    hide AssessSpec, FreezeSpec, RegisterPackage, CreateVersion, JsonMap, Ready, Run, PossibleRun;
    hide NeverDiverges, Untouched;
    NothingYet(env);
    assert !Diverges(EMPTY, Assessing(SPEC)) by { assert JsonMap(map[]) by { NoMembers(); } }
    DivergesExtends(env, EMPTY, [], Assessing(SPEC));
    Assessed();
    var a := Run(env, EMPTY, [] + [Assessing(SPEC)]);
    DivergesExtends(env, EMPTY, [] + [Assessing(SPEC)], Freeze(SPEC_ID));
    NowFrozen(env, a);
    var b := FreezeSpec(env, a, SPEC_ID).0;
    DivergesExtends(env, EMPTY, [] + [Assessing(SPEC)] + [Freeze(SPEC_ID)], Register(SPEC_ID, PACKAGE));
    Registered(b);
    var c := RegisterPackage(b, SPEC_ID, PACKAGE).0;
    DivergesExtends(env, EMPTY, [] + [Assessing(SPEC)] + [Freeze(SPEC_ID)] + [Register(SPEC_ID, PACKAGE)], CREATING);
    CreatedNow(env, c);
    MadeReady(env, CreateVersion(env, c, "r", SPEC_ID, "x", "g", None, Some("input:" + "x")).0);
  }

  /** Nothing was submitted, recorded or judged. */
  predicate Untouched(s: State) {
    && s.evidence == map[] && s.outcomes == map[] && s.rows.owners == map[]
    && forall n | 0 <= n < |s.history| :: !s.history[n].Submission?
  }

  lemma NothingYet(env: Env)
    ensures PossibleRun(env, EMPTY, []) && NeverDiverges(env, EMPTY, []) && Run(env, EMPTY, []) == EMPTY
  {
  }

  lemma NoMembers()
    ensures JsonMap(map[])
  {
  }

  lemma MadeReady(env: Env, s: State)
    requires env.Lawful() && s.packages == map[SPEC_ID := PACKAGE]
    requires SPEC_ID in s.sessions && s.sessions[SPEC_ID].state == Frozen && s.sessions[SPEC_ID].spec == Some(SPEC)
    requires s.versions == map[VERSION_ID := NewVersion(env, "r", SPEC_ID, "x", "g", None, Some("input:" + "x"))]
    ensures Ready(s, VERSION_ID) && !Carries(s.versions[VERSION_ID], "v")
    ensures s.versions[VERSION_ID].verificationStatus == NotRun && s.versions[VERSION_ID].specId == SPEC_ID
  {
    VersionIsValid(env);
    PackageIsValid();
    hide RTLVersion.Valid, OracleOf;
  }

  // ----- the diverging histories -----

  /** Main result: from the empty service, a simulation accepted under a run id of 161 characters leaves the running
      version in the dictionary and the old one in its row. */
  lemma LongRunDiverges(env: Env)
    requires env.Lawful()
    ensures var ops := Setup() + [Verify(VERSION_ID, true, Accepted("v"))] + [Observe("v", "succeeded", [VERSION_ID])]
                       + [Simulate(VERSION_ID, true, Accepted(LONG_RUN))];
            PossibleRun(env, EMPTY, ops) && !Agrees(env, Run(env, EMPTY, ops))
  {
    hide SubmitVerification, SubmitSimulation, ObserveRun, Ready, Run, PossibleRun, NeverDiverges, Setup, Agrees;
    hide Untouched, BuildSimulation, OnlySpecificationsDiffer;
    SetupIsReady(env);
    var s := Run(env, EMPTY, Setup());
    var first := Setup() + [Verify(VERSION_ID, true, Accepted("v"))];
    DivergesExtends(env, EMPTY, Setup(), Verify(VERSION_ID, true, Accepted("v")));
    VerifyStep(s, VERSION_ID, "v");
    var a := SubmitVerification(s, VERSION_ID, true, Accepted("v")).0;
    assert Enumerates([VERSION_ID], a.versions);
    var second := first + [Observe("v", "succeeded", [VERSION_ID])];
    DivergesExtends(env, EMPTY, first, Observe("v", "succeeded", [VERSION_ID]));
    ObserveStep(a, VERSION_ID, "v", [VERSION_ID]);
    var b := ObserveRun(a, "v", "succeeded", [VERSION_ID]).0;
    EmptyAgrees(env);
    HistoryAgrees(env, EMPTY, second);
    RunExtends(env, EMPTY, second, Simulate(VERSION_ID, true, Accepted(LONG_RUN)));
    LongRunIsRefused(b);
    StepAgrees(env, b, Simulate(VERSION_ID, true, Accepted(LONG_RUN)));
  }

  lemma LongRunIsRefused(s: State)
    requires Ready(s, VERSION_ID) && s.versions[VERSION_ID].verificationStatus == Passed
    ensures Diverges(s, Simulate(VERSION_ID, true, Accepted(LONG_RUN)))
  {
    hide OracleOf, RTLVersion.Valid;
    assert |LONG_RUN| == 161;
  }

  /** Assessing a valid spec with one constraint. */
  function AssessingOdd(odd: Value): Op {
    Assessing(SPEC.(constraints := map["odd" := odd]))
  }

  /** Main result: from the empty service, assessing a valid spec with a constraint that is not JSON data diverges: the
      dictionary holds the session, and its row holds another one, or, when JSON refuses the value and the call raises,
      there is no row. */
  lemma OddConstraintsDiverge(env: Env, odd: Value)
    requires !(IsPlain(odd) && IsSerialisable(odd))
    ensures Possible(EMPTY, AssessingOdd(odd))
    ensures var (t, r) := Step(env, EMPTY, AssessingOdd(odd));
            && !Agrees(env, t) && SPEC_ID in t.sessions
            && r == (if IsSerialisable(odd) then Return(()) else Raise(TypeError))
            && (!IsSerialisable(odd) ==> t.rows == NO_ROWS)
  {
    hide Agrees, SpecIR.Valid, EncodeSession, JsonMap;
    OddEnding(env, odd);
    EmptyAgrees(env);
    NotJson(odd);
    SpecIsValid(map["odd" := odd]);
    hide AssessSpec, AssessingOdd;
    assert Diverges(EMPTY, AssessingOdd(odd)) by { OddDiverges(odd); }
    StepAgrees(env, EMPTY, AssessingOdd(odd));
  }

  lemma OddEnding(env: Env, odd: Value)
    requires !(IsPlain(odd) && IsSerialisable(odd))
    ensures Possible(EMPTY, AssessingOdd(odd))
    ensures var (t, r) := Step(env, EMPTY, AssessingOdd(odd));
            && SPEC_ID in t.sessions && r == (if IsSerialisable(odd) then Return(()) else Raise(TypeError))
            && (!IsSerialisable(odd) ==> t.rows == NO_ROWS)
  {
    var constraints := map["odd" := odd];
    SpecIsValid(constraints);
    assert "odd" in constraints && (SerialisableMap(constraints) <==> IsSerialisable(odd));
    AssessWithSpec(EMPTY, "u", "o", SPEC.(constraints := constraints), [], None);
    hide AssessSpec, SpecIR.Valid, SerialisableMap, EncodeSession;
  }

  lemma OddDiverges(odd: Value)
    requires !JsonMap(map["odd" := odd])
    ensures Diverges(EMPTY, AssessingOdd(odd))
  {
    SpecIsValid(map["odd" := odd]);
    hide SpecIR.Valid, JsonMap;
  }

  lemma NotJson(odd: Value)
    requires !(IsPlain(odd) && IsSerialisable(odd))
    ensures !JsonMap(map["odd" := odd])
  {
    assert "odd" in map["odd" := odd];
  }

  lemma TuplesAreOdd()
    ensures !IsPlain(VTuple([])) && IsSerialisable(VTuple([])) && !IsSerialisable(VOpaque("set"))
  {
  }

  /** Both endings on values: a tuple, and a set. */
  lemma TupleAndSetDiverge(env: Env)
    ensures var (t, r) := Step(env, EMPTY, AssessingOdd(VTuple([]))); r.Return? && !Agrees(env, t)
    ensures var (t, r) := Step(env, EMPTY, AssessingOdd(VOpaque("set")));
            r == Raise(TypeError) && !Agrees(env, t) && SPEC_ID in t.sessions && SPEC_ID !in t.rows.sessions
  {
    hide Agrees, Step, IsPlain, IsSerialisable, AssessingOdd, Possible;
    TuplesAreOdd();
    OddConstraintsDiverge(env, VTuple([]));
    OddConstraintsDiverge(env, VOpaque("set"));
  }

  // ----- what direct recordings break -----

  /** A direct recording under a run that was never submitted: the session's owner is let through to that run. */
  lemma ForeignRunIsLetThrough(env: Env)
    requires env.Lawful()
    ensures var ops := Setup() + [SetVerification(VERSION_ID, Passed, "z")];
            && PossibleRun(env, EMPTY, ops)
            && var s := Run(env, EMPTY, ops);
               && Enumerates([VERSION_ID], s.versions) && Enumerates([], s.evidence)
               && AssertRunOwner(s, "z", "o", [VERSION_ID], []).Return? && !OwnedRun(s, "z", "o")
  {
    hide Run, PossibleRun, Setup, Ready, RecordVerification, NeverDiverges;
    SetupIsReady(env);
    RunExtends(env, EMPTY, Setup(), SetVerification(VERSION_ID, Passed, "z"));
    RecordedUnderForeignRun(Run(env, EMPTY, Setup()));
  }

  lemma RecordedUnderForeignRun(s: State)
    requires Ready(s, VERSION_ID) && s.versions.Keys == {VERSION_ID} && s.evidence == map[] && s.rows.owners == map[]
    requires s.versions[VERSION_ID].verificationStatus == NotRun && s.versions[VERSION_ID].specId == SPEC_ID
    requires s.sessions[SPEC_ID].ownerId == "o" && forall n | 0 <= n < |s.history| :: !s.history[n].Submission?
    ensures var t := RecordVerification(s, VERSION_ID, Passed, "z").0;
            && Enumerates([VERSION_ID], t.versions) && Enumerates([], t.evidence)
            && AssertRunOwner(t, "z", "o", [VERSION_ID], []).Return? && !OwnedRun(t, "z", "o")
  {
    hide OracleOf, EncodeVersion, IsDigest;
    var t := RecordVerification(s, VERSION_ID, Passed, "z").0;
    assert IsBoundedId("z");
    assert t.history == s.history && t.versions.Keys == {VERSION_ID} && t.evidence == map[];
    assert [VERSION_ID][0] == VERSION_ID && Carries(t.versions[VERSION_ID], "z");
    assert CarrierOf(t, "z", [VERSION_ID]) == Some(VERSION_ID);
    forall id ensures !SubmittedFor(t, "z", id) {}
  }

  /** Evidence of another kind, filed directly under the id of a run that has an incomplete outcome. */
  function LateNote(env: Env, now: string): EvidenceRef {
    EvidenceRef("evidence:" + "v", "o", SPEC_ID, VERSION_ID, "v", ["artifact:" + "x"], "note", "pending",
                env.shaOfText("x"), env.shaOfText("x"), env.shaOfText("x"), "c", now, SCHEMA_VERSION)
  }

  lemma LateNoteIsValid(env: Env, now: string)
    requires env.Lawful() && env.isInstant(now)
    ensures LateNote(env, now).Valid(env)
  {
    assert "artifact:" <= "artifact:" + "x";
    assert !IsSpace("c"[0]);
  }

  /** A direct recording of evidence under such an id gives the run both kinds of verdict. */
  lemma LateNoteContradicts(env: Env, now: string)
    requires env.Lawful() && env.isInstant(now)
    ensures var ops := Setup() + [Judge(VERSION_ID, "v", [], "p", [], now)] + [AddEvidence(LateNote(env, now))];
            && PossibleRun(env, EMPTY, ops)
            && "v" in Run(env, EMPTY, ops).outcomes && "evidence:" + "v" in Run(env, EMPTY, ops).evidence
  {
    hide Run, PossibleRun, Setup, Ready, RecordGdsEvidence, RecordEvidence, NeverDiverges, LateNote;
    SetupIsReady(env);
    var first := Setup() + [Judge(VERSION_ID, "v", [], "p", [], now)];
    RunExtends(env, EMPTY, Setup(), Judge(VERSION_ID, "v", [], "p", [], now));
    var s := Run(env, EMPTY, Setup());
    JudgedIncomplete(env, s, now);
    RunExtends(env, EMPTY, first, AddEvidence(LateNote(env, now)));
    NoteIsFiled(env, Run(env, EMPTY, first), now);
  }

  lemma JudgedIncomplete(env: Env, s: State, now: string)
    requires s.evidence == map[] && s.outcomes == map[]
    ensures var t := RecordGdsEvidence(env, s, VERSION_ID, "v", [], "p", [], now).0;
            "v" in t.outcomes && t == s.(outcomes := t.outcomes, rows := t.rows)
  {
    assert !CompleteRun([], []);
    assert IsBoundedId("v") && IsBoundedId("p") && IsBoundedId(VERSION_ID);
    IncompleteRunsReturnExactlyWhen(env, s, VERSION_ID, "v", [], "p", [], now);
    RecordShape(env, s, VERSION_ID, "v", [], "p", [], now);
    hide RecordGdsEvidence, CompleteRun, EncodeOutcome;
  }

  lemma NoteIsFiled(env: Env, s: State, now: string)
    requires env.Lawful() && env.isInstant(now) && s.evidence == map[]
    requires SPEC_ID in s.sessions && s.sessions[SPEC_ID].ownerId == "o"
    requires VERSION_ID in s.versions && s.versions[VERSION_ID].specId == SPEC_ID
    ensures var t := RecordEvidence(env, s, LateNote(env, now)).0;
            "evidence:" + "v" in t.evidence && t.outcomes == s.outcomes
  {
    LateNoteIsValid(env, now);
    hide EvidenceRef.Valid, EncodeEvidence, HasGdsArtifact;
  }
}
