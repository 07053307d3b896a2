/** The records exchanged and stored by the teaching modules, with their validation,
    their encoding to plain data and their decoders. */
module Contracts {
  import opened Wrappers
  import opened Text
  import opened Values

  const SCHEMA_VERSION := 1

  // ----- identifiers, texts and digests -----

  /** `[A-Za-z0-9][A-Za-z0-9_.:-]{0,127}` */
  predicate IsIdentifier(s: string) {
    0 < |s| <= 128 && IsAlnum(s[0]) && forall i | 0 <= i < |s| :: IsIdChar(s[i])
  }

  /** The looser identifier of the M1 records: at most 160 characters, any first character. */
  predicate IsBoundedId(s: string) {
    0 < |s| <= 160 && forall i | 0 <= i < |s| :: IsIdChar(s[i])
  }

  predicate IsText(s: string, maximum: nat) {
    NonBlank(s) && |s| <= maximum
  }

  predicate IsDigest(s: string) {
    |s| == 64 && forall i | 0 <= i < |s| :: '0' <= s[i] <= '9' || 'a' <= s[i] <= 'f'
  }

  const DIGITS := {'0', '1', '2', '3', '4', '5', '6', '7', '8', '9'}
  const CAPITALS := {'A', 'B', 'C', 'D', 'E', 'F', 'G', 'H', 'I', 'J', 'K', 'L', 'M',
                     'N', 'O', 'P', 'Q', 'R', 'S', 'T', 'U', 'V', 'W', 'X', 'Y', 'Z'}
  const SMALL := {'a', 'b', 'c', 'd', 'e', 'f', 'g', 'h', 'i', 'j', 'k', 'l', 'm',
                  'n', 'o', 'p', 'q', 'r', 's', 't', 'u', 'v', 'w', 'x', 'y', 'z'}
  const LETTERS := CAPITALS + SMALL

  lemma CharactersOfIds(c: char)
    ensures IsIdChar(c) <==> c in DIGITS + LETTERS + {'_', '.', ':', '-'}
    ensures IsAlnum(c) <==> c in DIGITS + LETTERS
  {
    CharactersOfWords(c);
    hide DIGITS, LETTERS, IsAlnum;
  }

  lemma CharactersOfWords(c: char)
    ensures IsAlnum(c) <==> c in DIGITS + LETTERS
  {
    Digit(c);
    Capital(c);
    Small(c);
    hide DIGITS, CAPITALS, SMALL;
  }

  lemma Digit(c: char)
    ensures c in DIGITS <==> '0' <= c <= '9'
  {
    var n := c as int;
    assert c == n as char;
  }

  lemma Capital(c: char)
    ensures c in CAPITALS <==> 'A' <= c <= 'Z'
  {
    var n := c as int;
    assert c == n as char;
  }

  lemma Small(c: char)
    ensures c in SMALL <==> 'a' <= c <= 'z'
  {
    var n := c as int;
    assert c == n as char;
  }

  /** The forms of names and digests, character by character: an identifier has at most 128 characters and starts with a
      letter or digit, a bounded id has at most 160. */
  lemma TheForms(s: string)
    ensures IsIdentifier(s) <==>
              && 1 <= |s| <= 128 && s[0] in DIGITS + LETTERS
              && forall c | c in s :: c in DIGITS + LETTERS + {'_', '.', ':', '-'}
    ensures IsBoundedId(s) <==>
              1 <= |s| <= 160 && forall c | c in s :: c in DIGITS + LETTERS + {'_', '.', ':', '-'}
    ensures IsDigest(s) <==> |s| == 64 && forall c | c in s :: c in DIGITS + {'a', 'b', 'c', 'd', 'e', 'f'}
  {
    hide LETTERS, IsIdChar, IsAlnum;
    forall i | 0 <= i < |s|
      ensures IsIdChar(s[i]) <==> s[i] in DIGITS + LETTERS + {'_', '.', ':', '-'}
      ensures IsAlnum(s[i]) <==> s[i] in DIGITS + LETTERS
      ensures '0' <= s[i] <= '9' || 'a' <= s[i] <= 'f' <==> s[i] in DIGITS + {'a', 'b', 'c', 'd', 'e', 'f'}
    {
      CharactersOfIds(s[i]);
    }
  }

  /** Library functions the records depend on: SHA-256 of a canonical document and of a text,
      and whether a text is an ISO-8601 instant with a time zone. */
  datatype Env = Env(shaOfValue: Value -> string, shaOfText: string -> string, isInstant: string -> bool) {
    ghost predicate Lawful() {
      && (forall v :: IsDigest(shaOfValue(v)))
      && (forall s :: IsDigest(shaOfText(s)))
    }
  }

  // ----- records -----

  datatype PortSpec = PortSpec(name: string, direction: string, width: Option<int>, schemaVersion: int) {
    predicate Valid() {
      && schemaVersion == SCHEMA_VERSION
      && IsIdentifier(name)
      && direction in {"input", "output", "inout"}
      && (width.Some? ==> 1 <= width.value <= 65536)
    }
  }

  datatype SpecIR = SpecIR(
    specId: string, designId: string, top: string, functionality: string, objective: string,
    ports: seq<PortSpec>, clock: Option<string>, reset: Option<string>, constraints: map<string, Value>,
    assumptions: seq<string>, acceptanceCriteria: seq<string>, schemaVersion: int)
  {
    predicate HasPort(name: string) {
      exists i | 0 <= i < |ports| :: ports[i].name == name
    }

    predicate Valid() {
      && schemaVersion == SCHEMA_VERSION
      && IsIdentifier(specId) && IsIdentifier(designId) && IsIdentifier(top)
      && IsText(functionality, 8000) && IsText(objective, 2000)
      && ports != []
      && (forall i | 0 <= i < |ports| :: ports[i].Valid())
      && (forall i, j | 0 <= i < j < |ports| :: ports[i].name != ports[j].name)
      && (clock.Some? ==> IsIdentifier(clock.value) && HasPort(clock.value))
      && (reset.Some? ==> IsIdentifier(reset.value) && HasPort(reset.value))
      && acceptanceCriteria != []
      && (forall i | 0 <= i < |assumptions| :: IsText(assumptions[i], 2000))
      && (forall i | 0 <= i < |acceptanceCriteria| :: IsText(acceptanceCriteria[i], 2000))
    }
  }

  predicate IsFraction(v: Value) {
    match v
    case VInt(i) => 0 <= i <= 1
    case VFloat(num, den) => den > 0 && 0 <= num <= den
    case _ => false
  }

  predicate IsDurableRef(s: string) {
    "artifact:" <= s || "source:" <= s
  }

  datatype VerificationPackage = VerificationPackage(
    verificationId: string, specId: string, compileChecks: seq<string>, simulationOracleRefs: seq<string>,
    simulationTop: Option<string>, formalPropertyRefs: seq<string>, coverageTargets: map<string, Value>,
    schemaVersion: int)
  {
    predicate Valid() {
      && schemaVersion == SCHEMA_VERSION
      && IsIdentifier(verificationId) && IsIdentifier(specId)
      && compileChecks != []
      && (forall i | 0 <= i < |compileChecks| :: compileChecks[i] != "")
      && (forall i | 0 <= i < |simulationOracleRefs| :: IsDurableRef(simulationOracleRefs[i]))
      && (forall i | 0 <= i < |formalPropertyRefs| :: IsDurableRef(formalPropertyRefs[i]))
      && (simulationTop.Some? ==> IsIdentifier(simulationTop.value))
      && (forall k | k in coverageTargets :: IsFraction(coverageTargets[k]))
    }
  }

  datatype EvidenceRef = EvidenceRef(
    evidenceId: string, ownerId: string, specId: string, candidateId: string, runId: string,
    artifactIds: seq<string>, evidenceKind: string, status: string, sha256: string, toolchainDigest: string,
    protocolDigest: string, claimBoundary: string, createdAt: string, schemaVersion: int)
  {
    predicate Valid(env: Env) {
      && schemaVersion == SCHEMA_VERSION
      && IsIdentifier(evidenceId) && IsIdentifier(ownerId) && IsIdentifier(specId)
      && IsIdentifier(candidateId) && IsIdentifier(runId) && IsIdentifier(evidenceKind)
      && artifactIds != []
      && (forall i | 0 <= i < |artifactIds| :: "artifact:" <= artifactIds[i] && |artifactIds[i]| <= 256)
      && (forall i, j | 0 <= i < j < |artifactIds| :: artifactIds[i] != artifactIds[j])
      && status in {"pending", "succeeded", "failed", "incomplete", "rejected"}
      && IsDigest(sha256) && IsDigest(toolchainDigest) && IsDigest(protocolDigest)
      && IsText(claimBoundary, 4000)
      && env.isInstant(createdAt)
    }
  }

  datatype M1State = NeedsClarification | UnsupportedScope | Specified | Frozen | RtlVersioned | Verified
    | Submitted | Measured | StateFailed | Incomplete

  /** Progress of a verification or a simulation of one RTL version. */
  datatype CheckStatus = NotRun | Running | Passed | Failed | Invalidated

  datatype M1Session = M1Session(
    specId: string, ownerId: string, state: M1State, spec: Option<SpecIR>, clarificationQuestions: seq<string>,
    unsupportedReason: Option<string>, frozenFingerprint: Option<string>)
  {
    predicate Valid() {
      && IsBoundedId(specId) && IsBoundedId(ownerId)
      && (spec.Some? ==> spec.value.Valid())
      && (forall i | 0 <= i < |clarificationQuestions| :: NonBlank(clarificationQuestions[i]))
      && (state.NeedsClarification? ==> clarificationQuestions != [])
      && (state.UnsupportedScope? ==> unsupportedReason.Some? && unsupportedReason.value != "")
      && (state.Frozen? ==> spec.Some? && frozenFingerprint.Some? && IsDigest(frozenFingerprint.value))
    }
  }

  datatype RTLVersion = RTLVersion(
    versionId: string, specId: string, rtlSha256: string, generator: string,
    verificationStatus: CheckStatus, verificationRunId: Option<string>,
    simulationStatus: CheckStatus, simulationRunId: Option<string>,
    parentVersionId: Option<string>, sourceRef: Option<string>)
  {
    predicate Valid() {
      && IsBoundedId(versionId) && IsBoundedId(specId) && IsBoundedId(generator)
      && IsDigest(rtlSha256)
      && (verificationRunId.Some? ==> IsBoundedId(verificationRunId.value))
      && (simulationRunId.Some? ==> IsBoundedId(simulationRunId.value))
      && (parentVersionId.Some? ==> IsBoundedId(parentVersionId.value) && parentVersionId.value != versionId)
      && (sourceRef.Some? ==> "input:" <= sourceRef.value)
    }
  }

  datatype M1RunOutcome = M1RunOutcome(
    runId: string, candidateId: string, pdk: string, status: string, reason: string, artifactIds: seq<string>)
  {
    predicate Valid() {
      && IsBoundedId(runId) && IsBoundedId(candidateId) && IsBoundedId(pdk)
      && status == "gds_incomplete"
      && NonBlank(reason)
      && (forall i | 0 <= i < |artifactIds| :: IsBoundedId(artifactIds[i]))
    }
  }

  // ----- encoders -----

  function Strings(xs: seq<string>): Value {
    VList(seq(|xs|, i requires 0 <= i < |xs| => VStr(xs[i])))
  }

  function OrNull(s: Option<string>): Value {
    if s.Some? then VStr(s.value) else VNull
  }

  function EncodePort(p: PortSpec): Value {
    VMap(map["name" := VStr(p.name), "direction" := VStr(p.direction),
             "width" := if p.width.Some? then VInt(p.width.value) else VNull,
             "schema_version" := VInt(p.schemaVersion)])
  }

  function EncodeSpec(s: SpecIR): Value {
    VMap(map["spec_id" := VStr(s.specId), "design_id" := VStr(s.designId), "top" := VStr(s.top),
             "functionality" := VStr(s.functionality), "objective" := VStr(s.objective),
             "ports" := VList(seq(|s.ports|, i requires 0 <= i < |s.ports| => EncodePort(s.ports[i]))),
             "clock" := OrNull(s.clock), "reset" := OrNull(s.reset),
             "constraints" := VMap(PrimitiveMap(s.constraints)),
             "assumptions" := Strings(s.assumptions),
             "acceptance_criteria" := Strings(s.acceptanceCriteria),
             "schema_version" := VInt(s.schemaVersion)])
  }

  function EncodePackage(p: VerificationPackage): Value {
    VMap(map["verification_id" := VStr(p.verificationId), "spec_id" := VStr(p.specId),
             "compile_checks" := Strings(p.compileChecks),
             "simulation_oracle_refs" := Strings(p.simulationOracleRefs),
             "simulation_top" := OrNull(p.simulationTop),
             "formal_property_refs" := Strings(p.formalPropertyRefs),
             "coverage_targets" := VMap(PrimitiveMap(p.coverageTargets)),
             "schema_version" := VInt(p.schemaVersion)])
  }

  function EncodeEvidence(e: EvidenceRef): Value {
    VMap(map["evidence_id" := VStr(e.evidenceId), "owner_id" := VStr(e.ownerId), "spec_id" := VStr(e.specId),
             "candidate_id" := VStr(e.candidateId), "run_id" := VStr(e.runId),
             "artifact_ids" := Strings(e.artifactIds), "evidence_kind" := VStr(e.evidenceKind),
             "status" := VStr(e.status), "sha256" := VStr(e.sha256),
             "toolchain_digest" := VStr(e.toolchainDigest), "protocol_digest" := VStr(e.protocolDigest),
             "claim_boundary" := VStr(e.claimBoundary), "created_at" := VStr(e.createdAt),
             "schema_version" := VInt(e.schemaVersion)])
  }

  function StateName(s: M1State): string {
    match s
    case NeedsClarification => "needs_clarification"
    case UnsupportedScope => "unsupported_scope"
    case Specified => "specified"
    case Frozen => "frozen"
    case RtlVersioned => "rtl_versioned"
    case Verified => "verified"
    case Submitted => "submitted"
    case Measured => "measured"
    case StateFailed => "failed"
    case Incomplete => "incomplete"
  }

  function StatusName(s: CheckStatus): string {
    match s
    case NotRun => "not_run"
    case Running => "running"
    case Passed => "passed"
    case Failed => "failed"
    case Invalidated => "invalidated"
  }

  function EncodeSession(s: M1Session): Value {
    VMap(map["spec_id" := VStr(s.specId), "owner_id" := VStr(s.ownerId), "state" := VStr(StateName(s.state)),
             "spec" := if s.spec.Some? then EncodeSpec(s.spec.value) else VNull,
             "clarification_questions" := Strings(s.clarificationQuestions),
             "unsupported_reason" := OrNull(s.unsupportedReason),
             "frozen_fingerprint" := OrNull(s.frozenFingerprint)])
  }

  function EncodeVersion(v: RTLVersion): Value {
    VMap(map["version_id" := VStr(v.versionId), "spec_id" := VStr(v.specId),
             "rtl_sha256" := VStr(v.rtlSha256), "generator" := VStr(v.generator),
             "verification_status" := VStr(StatusName(v.verificationStatus)),
             "verification_run_id" := OrNull(v.verificationRunId),
             "simulation_status" := VStr(StatusName(v.simulationStatus)),
             "simulation_run_id" := OrNull(v.simulationRunId),
             "parent_version_id" := OrNull(v.parentVersionId),
             "source_ref" := OrNull(v.sourceRef)])
  }

  function EncodeOutcome(o: M1RunOutcome): Value {
    VMap(map["run_id" := VStr(o.runId), "candidate_id" := VStr(o.candidateId), "pdk" := VStr(o.pdk),
             "status" := VStr(o.status), "reason" := VStr(o.reason),
             "artifact_ids" := Strings(o.artifactIds)])
  }

  /** The fingerprint frozen with a spec. */
  function Fingerprint(env: Env, s: SpecIR): string {
    env.shaOfValue(EncodeSpec(s))
  }

  // ----- decoders -----

  const SPEC_FIELDS := {"spec_id", "design_id", "top", "functionality", "objective", "ports", "clock", "reset",
                        "constraints", "assumptions", "acceptance_criteria", "schema_version"}
  const PACKAGE_FIELDS := {"verification_id", "spec_id", "compile_checks", "simulation_oracle_refs",
                           "simulation_top", "formal_property_refs", "coverage_targets", "schema_version"}
  const EVIDENCE_FIELDS := {"evidence_id", "owner_id", "spec_id", "candidate_id", "run_id", "artifact_ids",
                            "evidence_kind", "status", "sha256", "toolchain_digest", "protocol_digest",
                            "claim_boundary", "created_at", "schema_version"}
  const SESSION_FIELDS := {"spec_id", "owner_id", "state", "spec", "clarification_questions",
                           "unsupported_reason", "frozen_fingerprint"}
  const VERSION_FIELDS := {"version_id", "spec_id", "rtl_sha256", "generator", "verification_status",
                           "verification_run_id", "simulation_status", "simulation_run_id",
                           "parent_version_id", "source_ref"}

  function GetStr(m: map<string, Value>, k: string): Option<string> {
    if k in m && m[k].VStr? then Some(m[k].s) else None
  }

  /** An optional text member: absent and null both read as no value. */
  function GetOptStr(m: map<string, Value>, k: string): Option<Option<string>> {
    if k !in m || m[k].VNull? then Some(None)
    else if m[k].VStr? then Some(Some(m[k].s))
    else None
  }

  function GetStrings(m: map<string, Value>, k: string): Option<seq<string>> {
    if k !in m then Some([])
    else if m[k].VList? && forall i | 0 <= i < |m[k].xs| :: m[k].xs[i].VStr? then
      var xs := m[k].xs;
      Some(seq(|xs|, i requires 0 <= i < |xs| && xs[i].VStr? => xs[i].s))
    else None
  }

  function GetMap(m: map<string, Value>, k: string): Option<map<string, Value>> {
    if k !in m then Some(map[]) else if m[k].VMap? then Some(m[k].m) else None
  }

  /** Members of a versioned payload: `schema_version` is required and no unknown member is allowed. */
  function KnownPayload(v: Value, allowed: set<string>): Option<map<string, Value>> {
    if v.VMap? && "schema_version" in v.m && v.m.Keys <= allowed then Some(v.m) else None
  }

  function Version(m: map<string, Value>): Option<int> {
    if "schema_version" in m && m["schema_version"].VInt? then Some(m["schema_version"].i) else None
  }

  function DecodePort(v: Value): Option<PortSpec> {
    var m :- KnownPayload(v, {"name", "direction", "width", "schema_version"});
    var name :- GetStr(m, "name");
    var direction :- GetStr(m, "direction");
    var width :- (if "width" !in m || m["width"].VNull? then Some(None)
                  else if m["width"].VInt? then Some(Some(m["width"].i)) else None);
    var version :- Version(m);
    var p := PortSpec(name, direction, width, version);
    if p.Valid() then Some(p) else None
  }

  function DecodePorts(vs: seq<Value>): (r: Option<seq<PortSpec>>)
    ensures r.Some? ==> |r.value| == |vs|
  {
    if vs == [] then Some([])
    else
      var p :- DecodePort(vs[0]);
      var rest :- DecodePorts(vs[1..]);
      Some([p] + rest)
  }

  function DecodeSpec(v: Value): Option<SpecIR> {
    var m :- KnownPayload(v, SPEC_FIELDS);
    var specId :- GetStr(m, "spec_id");
    var designId :- GetStr(m, "design_id");
    var top :- GetStr(m, "top");
    var functionality :- GetStr(m, "functionality");
    var objective :- GetStr(m, "objective");
    var ports :- (if "ports" !in m then Some([]) else if m["ports"].VList? then DecodePorts(m["ports"].xs) else None);
    var clock :- GetOptStr(m, "clock");
    var reset :- GetOptStr(m, "reset");
    var constraints :- GetMap(m, "constraints");
    var assumptions :- GetStrings(m, "assumptions");
    var criteria :- GetStrings(m, "acceptance_criteria");
    var version :- Version(m);
    var s := SpecIR(specId, designId, top, functionality, objective, ports, clock, reset, constraints,
                    assumptions, criteria, version);
    if s.Valid() then Some(s) else None
  }

  function DecodePackage(v: Value): Option<VerificationPackage> {
    var m :- KnownPayload(v, PACKAGE_FIELDS);
    var verificationId :- GetStr(m, "verification_id");
    var specId :- GetStr(m, "spec_id");
    var checks :- GetStrings(m, "compile_checks");
    var oracles :- GetStrings(m, "simulation_oracle_refs");
    var top :- GetOptStr(m, "simulation_top");
    var properties :- GetStrings(m, "formal_property_refs");
    var targets :- GetMap(m, "coverage_targets");
    var version :- Version(m);
    var p := VerificationPackage(verificationId, specId, checks, oracles, top, properties, targets, version);
    if p.Valid() then Some(p) else None
  }

  function DecodeEvidence(env: Env, v: Value): Option<EvidenceRef> {
    var m :- KnownPayload(v, EVIDENCE_FIELDS);
    var evidenceId :- GetStr(m, "evidence_id");
    var ownerId :- GetStr(m, "owner_id");
    var specId :- GetStr(m, "spec_id");
    var candidateId :- GetStr(m, "candidate_id");
    var runId :- GetStr(m, "run_id");
    var artifacts :- GetStrings(m, "artifact_ids");
    var kind :- GetStr(m, "evidence_kind");
    var status :- GetStr(m, "status");
    var sha :- GetStr(m, "sha256");
    var toolchain :- GetStr(m, "toolchain_digest");
    var protocol :- GetStr(m, "protocol_digest");
    var claim :- GetStr(m, "claim_boundary");
    var created :- GetStr(m, "created_at");
    var version :- Version(m);
    var e := EvidenceRef(evidenceId, ownerId, specId, candidateId, runId, artifacts, kind, status, sha,
                         toolchain, protocol, claim, created, version);
    if e.Valid(env) then Some(e) else None
  }

  function DecodeState(name: string): Option<M1State> {
    if name == "needs_clarification" then Some(NeedsClarification)
    else if name == "unsupported_scope" then Some(UnsupportedScope)
    else if name == "specified" then Some(Specified)
    else if name == "frozen" then Some(Frozen)
    else if name == "rtl_versioned" then Some(RtlVersioned)
    else if name == "verified" then Some(Verified)
    else if name == "submitted" then Some(Submitted)
    else if name == "measured" then Some(Measured)
    else if name == "failed" then Some(StateFailed)
    else if name == "incomplete" then Some(Incomplete)
    else None
  }

  function DecodeStatus(name: string): Option<CheckStatus> {
    if name == "not_run" then Some(NotRun)
    else if name == "running" then Some(Running)
    else if name == "passed" then Some(Passed)
    else if name == "failed" then Some(Failed)
    else if name == "invalidated" then Some(Invalidated)
    else None
  }

  function DecodeSession(v: Value): Option<M1Session> {
    if !v.VMap? || !(v.m.Keys <= SESSION_FIELDS) then None
    else
      var m := v.m;
      var name :- GetStr(m, "state");
      var state :- DecodeState(name);
      var spec :- (if "spec" !in m || m["spec"].VNull? then Some(None)
                   else var s :- DecodeSpec(m["spec"]); Some(Some(s)));
      var questions :- GetStrings(m, "clarification_questions");
      var specId :- GetStr(m, "spec_id");
      var ownerId :- GetStr(m, "owner_id");
      var reason :- GetOptStr(m, "unsupported_reason");
      var fingerprint :- GetOptStr(m, "frozen_fingerprint");
      var s := M1Session(specId, ownerId, state, spec, questions, reason, fingerprint);
      if s.Valid() then Some(s) else None
  }

  function DecodeVersion(v: Value): Option<RTLVersion> {
    if !v.VMap? || !(v.m.Keys <= VERSION_FIELDS) then None
    else
      var m := v.m;
      var verificationName :- GetStr(m, "verification_status");
      var verification :- DecodeStatus(verificationName);
      var simulationName :- (if "simulation_status" !in m then Some("not_run") else GetStr(m, "simulation_status"));
      var simulation :- DecodeStatus(simulationName);
      var versionId :- GetStr(m, "version_id");
      var specId :- GetStr(m, "spec_id");
      var sha :- GetStr(m, "rtl_sha256");
      var generator :- GetStr(m, "generator");
      var verificationRun :- GetOptStr(m, "verification_run_id");
      var simulationRun :- GetOptStr(m, "simulation_run_id");
      var parent :- GetOptStr(m, "parent_version_id");
      var source :- GetOptStr(m, "source_ref");
      var r := RTLVersion(versionId, specId, sha, generator, verification, verificationRun, simulation,
                          simulationRun, parent, source);
      if r.Valid() then Some(r) else None
  }

  function DecodeOutcome(v: Value): Option<M1RunOutcome> {
    if !v.VMap? then None
    else
      var m := v.m;
      var runId :- GetStr(m, "run_id");
      var candidateId :- GetStr(m, "candidate_id");
      var pdk :- GetStr(m, "pdk");
      var status :- GetStr(m, "status");
      var reason :- GetStr(m, "reason");
      var artifacts :- GetStrings(m, "artifact_ids");
      var o := M1RunOutcome(runId, candidateId, pdk, status, reason, artifacts);
      if o.Valid() then Some(o) else None
  }

  // ----- round trips -----

  lemma StringsRoundTrip(m: map<string, Value>, k: string, xs: seq<string>)
    requires k in m && m[k] == Strings(xs)
    ensures GetStrings(m, k) == Some(xs)
  {
    assert GetStrings(m, k).value == xs;
  }

  lemma PortRoundTrip(p: PortSpec)
    requires p.Valid()
    ensures DecodePort(EncodePort(p)) == Some(p)
  {
    var m := EncodePort(p).m;
    assert m.Keys <= {"name", "direction", "width", "schema_version"};
  }

  lemma {:induction false} PortsRoundTrip(ps: seq<PortSpec>, vs: seq<Value>)
    requires |vs| == |ps|
    requires forall i | 0 <= i < |ps| :: ps[i].Valid() && vs[i] == EncodePort(ps[i])
    ensures DecodePorts(vs) == Some(ps)
  {
    if ps != [] {
      PortRoundTrip(ps[0]);
      PortsRoundTrip(ps[1..], vs[1..]);
      assert ps == [ps[0]] + ps[1..];
    }
  }

  // One record at a time: the encoding's members (one lemma), then decoding any object with these members.

  predicate SpecNames(m: map<string, Value>, s: SpecIR) {
    && GetStr(m, "spec_id") == Some(s.specId)
    && GetStr(m, "design_id") == Some(s.designId)
    && GetStr(m, "top") == Some(s.top)
    && GetStr(m, "functionality") == Some(s.functionality)
    && GetStr(m, "objective") == Some(s.objective)
    && GetOptStr(m, "clock") == Some(s.clock)
    && GetOptStr(m, "reset") == Some(s.reset)
  }

  predicate SpecLists(m: map<string, Value>, s: SpecIR) {
    && "ports" in m && m["ports"].VList? && |m["ports"].xs| == |s.ports|
    && (forall i | 0 <= i < |s.ports| :: m["ports"].xs[i] == EncodePort(s.ports[i]))
    && GetMap(m, "constraints") == Some(PrimitiveMap(s.constraints))
    && "assumptions" in m && m["assumptions"] == Strings(s.assumptions)
    && "acceptance_criteria" in m && m["acceptance_criteria"] == Strings(s.acceptanceCriteria)
    && Version(m) == Some(s.schemaVersion)
  }

  lemma SpecHasNames(s: SpecIR)
    ensures SpecNames(EncodeSpec(s).m, s)
  {
  }

  lemma SpecHasLists(s: SpecIR)
    ensures SpecLists(EncodeSpec(s).m, s)
  {
  }

  lemma SpecIsKnown(s: SpecIR)
    ensures KnownPayload(EncodeSpec(s), SPEC_FIELDS).Some?
  {
  }

  /** What a reader of the encoding gets back: the same record with plain-data constraints. */
  function Plain(s: SpecIR): SpecIR {
    s.(constraints := PrimitiveMap(s.constraints))
  }

  lemma SpecFromMembers(m: map<string, Value>, s: SpecIR)
    requires s.Valid() && SpecNames(m, s) && SpecLists(m, s) && KnownPayload(VMap(m), SPEC_FIELDS).Some?
    ensures Plain(s).Valid() && DecodeSpec(VMap(m)) == Some(Plain(s))
  {
    PortsRoundTrip(s.ports, m["ports"].xs);
    StringsRoundTrip(m, "assumptions", s.assumptions);
    StringsRoundTrip(m, "acceptance_criteria", s.acceptanceCriteria);
  }

  /** A spec survives encoding exactly when its constraints are plain data; its fingerprint always does. */
  lemma SpecRoundTrip(env: Env, s: SpecIR)
    requires s.Valid()
    ensures DecodeSpec(EncodeSpec(s)) == Some(Plain(s))
    ensures DecodeSpec(EncodeSpec(s)) == Some(s) <==> PlainMap(s.constraints)
    ensures Fingerprint(env, DecodeSpec(EncodeSpec(s)).value) == Fingerprint(env, s)
  {
    SpecHasNames(s);
    SpecHasLists(s);
    SpecIsKnown(s);
    SpecFromMembers(EncodeSpec(s).m, s);
    PrimitiveMapKeepsExactlyPlain(s.constraints);
  }

  /** A hash without collisions. */
  ghost predicate NoCollisions(env: Env) {
    forall a, b :: env.shaOfValue(a) == env.shaOfValue(b) ==> a == b
  }

  /** Main result: with a hash without collisions the fingerprint of a valid spec tells the whole spec, every member of
      it, up to what conversion to plain data rewrites in its constraints. */
  lemma FingerprintsTellTheSpec(env: Env, a: SpecIR, b: SpecIR)
    requires NoCollisions(env) && a.Valid() && b.Valid()
    ensures Fingerprint(env, a) == Fingerprint(env, b)
      <==> a.(constraints := PrimitiveMap(a.constraints)) == b.(constraints := PrimitiveMap(b.constraints))
    ensures PlainMap(a.constraints) && PlainMap(b.constraints) ==>
              (Fingerprint(env, a) == Fingerprint(env, b) <==> a == b)
  {
    SpecRoundTrip(env, a);
    SpecRoundTrip(env, b);
    hide DecodeSpec, PrimitiveMap, PlainMap, SpecIR.Valid;
  }

  predicate PackageMembers(m: map<string, Value>, p: VerificationPackage) {
    && GetStr(m, "verification_id") == Some(p.verificationId)
    && GetStr(m, "spec_id") == Some(p.specId)
    && "compile_checks" in m && m["compile_checks"] == Strings(p.compileChecks)
    && "simulation_oracle_refs" in m && m["simulation_oracle_refs"] == Strings(p.simulationOracleRefs)
    && "formal_property_refs" in m && m["formal_property_refs"] == Strings(p.formalPropertyRefs)
    && GetOptStr(m, "simulation_top") == Some(p.simulationTop)
    && GetMap(m, "coverage_targets") == Some(PrimitiveMap(p.coverageTargets))
    && Version(m) == Some(p.schemaVersion)
  }

  lemma PackageHasMembers(p: VerificationPackage)
    ensures PackageMembers(EncodePackage(p).m, p)
    ensures KnownPayload(EncodePackage(p), PACKAGE_FIELDS).Some?
  {
  }

  lemma PackageFromMembers(m: map<string, Value>, p: VerificationPackage)
    requires p.Valid() && PackageMembers(m, p) && KnownPayload(VMap(m), PACKAGE_FIELDS).Some?
    ensures DecodePackage(VMap(m)) == Some(p)
  {
    StringsRoundTrip(m, "compile_checks", p.compileChecks);
    StringsRoundTrip(m, "simulation_oracle_refs", p.simulationOracleRefs);
    StringsRoundTrip(m, "formal_property_refs", p.formalPropertyRefs);
    assert PrimitiveMap(p.coverageTargets) == p.coverageTargets by {
      forall k | k in p.coverageTargets ensures Primitive(p.coverageTargets[k]) == p.coverageTargets[k] {
        assert IsFraction(p.coverageTargets[k]);
      }
    }
  }

  lemma PackageRoundTrip(p: VerificationPackage)
    requires p.Valid()
    ensures DecodePackage(EncodePackage(p)) == Some(p)
  {
    PackageHasMembers(p);
    PackageFromMembers(EncodePackage(p).m, p);
  }

  predicate EvidenceNames(m: map<string, Value>, e: EvidenceRef) {
    && GetStr(m, "evidence_id") == Some(e.evidenceId)
    && GetStr(m, "owner_id") == Some(e.ownerId)
    && GetStr(m, "spec_id") == Some(e.specId)
    && GetStr(m, "candidate_id") == Some(e.candidateId)
    && GetStr(m, "run_id") == Some(e.runId)
    && "artifact_ids" in m && m["artifact_ids"] == Strings(e.artifactIds)
    && GetStr(m, "evidence_kind") == Some(e.evidenceKind)
  }

  predicate EvidenceClaims(m: map<string, Value>, e: EvidenceRef) {
    && GetStr(m, "status") == Some(e.status)
    && GetStr(m, "sha256") == Some(e.sha256)
    && GetStr(m, "toolchain_digest") == Some(e.toolchainDigest)
    && GetStr(m, "protocol_digest") == Some(e.protocolDigest)
    && GetStr(m, "claim_boundary") == Some(e.claimBoundary)
    && GetStr(m, "created_at") == Some(e.createdAt)
    && Version(m) == Some(e.schemaVersion)
  }

  lemma EvidenceHasNames(e: EvidenceRef)
    ensures EvidenceNames(EncodeEvidence(e).m, e)
  {
  }

  lemma EvidenceHasClaims(e: EvidenceRef)
    ensures EvidenceClaims(EncodeEvidence(e).m, e)
  {
  }

  lemma EvidenceIsKnown(e: EvidenceRef)
    ensures KnownPayload(EncodeEvidence(e), EVIDENCE_FIELDS).Some?
  {
  }

  lemma EvidenceFromMembers(env: Env, m: map<string, Value>, e: EvidenceRef)
    requires e.Valid(env) && EvidenceNames(m, e) && EvidenceClaims(m, e)
    requires KnownPayload(VMap(m), EVIDENCE_FIELDS).Some?
    ensures DecodeEvidence(env, VMap(m)) == Some(e)
  {
    StringsRoundTrip(m, "artifact_ids", e.artifactIds);
  }

  lemma EvidenceRoundTrip(env: Env, e: EvidenceRef)
    requires e.Valid(env)
    ensures DecodeEvidence(env, EncodeEvidence(e)) == Some(e)
  {
    EvidenceHasNames(e);
    EvidenceHasClaims(e);
    EvidenceIsKnown(e);
    EvidenceFromMembers(env, EncodeEvidence(e).m, e);
  }

  predicate SessionMembers(m: map<string, Value>, s: M1Session) {
    && m.Keys <= SESSION_FIELDS
    && GetStr(m, "spec_id") == Some(s.specId)
    && GetStr(m, "owner_id") == Some(s.ownerId)
    && GetStr(m, "state") == Some(StateName(s.state))
    && "spec" in m && m["spec"] == (if s.spec.Some? then EncodeSpec(s.spec.value) else VNull)
    && "clarification_questions" in m && m["clarification_questions"] == Strings(s.clarificationQuestions)
    && GetOptStr(m, "unsupported_reason") == Some(s.unsupportedReason)
    && GetOptStr(m, "frozen_fingerprint") == Some(s.frozenFingerprint)
  }

  lemma SessionHasMembers(s: M1Session)
    ensures SessionMembers(EncodeSession(s).m, s)
  {
  }

  lemma StateNameDecodes(s: M1State)
    ensures DecodeState(StateName(s)) == Some(s)
  {
  }

  /** The session a reader gets back. */
  function PlainSession(s: M1Session): M1Session {
    if s.spec.Some? then s.(spec := Some(Plain(s.spec.value))) else s
  }

  lemma SessionFromMembers(m: map<string, Value>, s: M1Session)
    requires s.Valid() && SessionMembers(m, s)
    requires s.spec.Some? ==> DecodeSpec(m["spec"]) == Some(Plain(s.spec.value)) && Plain(s.spec.value).Valid()
    ensures DecodeSession(VMap(m)) == Some(PlainSession(s))
  {
    StringsRoundTrip(m, "clarification_questions", s.clarificationQuestions);
    StateNameDecodes(s.state);
  }

  predicate HasPlainSpec(s: M1Session) {
    s.spec.Some? ==> PlainMap(s.spec.value.constraints)
  }

  /** `json.dumps` writes the encoded session. */
  predicate IsWritable(s: M1Session) {
    s.spec.Some? ==> SerialisableMap(s.spec.value.constraints)
  }

  lemma SessionRoundTrip(env: Env, s: M1Session)
    requires s.Valid()
    ensures DecodeSession(EncodeSession(s)) == Some(PlainSession(s))
    ensures DecodeSession(EncodeSession(s)) == Some(s) <==> HasPlainSpec(s)
  {
    SessionHasMembers(s);
    if s.spec.Some? {
      SpecRoundTrip(env, s.spec.value);
      PrimitiveMapKeepsExactlyPlain(s.spec.value.constraints);
    }
    SessionFromMembers(EncodeSession(s).m, s);
  }

  predicate VersionMembers(m: map<string, Value>, v: RTLVersion) {
    && GetStr(m, "version_id") == Some(v.versionId)
    && GetStr(m, "spec_id") == Some(v.specId)
    && GetStr(m, "rtl_sha256") == Some(v.rtlSha256)
    && GetStr(m, "generator") == Some(v.generator)
    && GetStr(m, "verification_status") == Some(StatusName(v.verificationStatus))
    && GetOptStr(m, "verification_run_id") == Some(v.verificationRunId)
    && GetStr(m, "simulation_status") == Some(StatusName(v.simulationStatus))
    && GetOptStr(m, "simulation_run_id") == Some(v.simulationRunId)
    && GetOptStr(m, "parent_version_id") == Some(v.parentVersionId)
    && GetOptStr(m, "source_ref") == Some(v.sourceRef)
  }

  lemma VersionHasMembers(v: RTLVersion)
    ensures VersionMembers(EncodeVersion(v).m, v)
  {
  }

  lemma VersionIsKnown(v: RTLVersion)
    ensures EncodeVersion(v).m.Keys <= VERSION_FIELDS
  {
  }

  lemma StatusNameDecodes(s: CheckStatus)
    ensures DecodeStatus(StatusName(s)) == Some(s)
  {
  }

  lemma VersionFromMembers(m: map<string, Value>, v: RTLVersion)
    requires v.Valid() && VersionMembers(m, v) && m.Keys <= VERSION_FIELDS
    ensures DecodeVersion(VMap(m)) == Some(v)
  {
    StatusNameDecodes(v.verificationStatus);
    StatusNameDecodes(v.simulationStatus);
  }

  lemma VersionRoundTrip(v: RTLVersion)
    requires v.Valid()
    ensures DecodeVersion(EncodeVersion(v)) == Some(v)
  {
    VersionHasMembers(v);
    VersionIsKnown(v);
    VersionFromMembers(EncodeVersion(v).m, v);
  }

  lemma OutcomeRoundTrip(o: M1RunOutcome)
    requires o.Valid()
    ensures DecodeOutcome(EncodeOutcome(o)) == Some(o)
  {
    StringsRoundTrip(EncodeOutcome(o).m, "artifact_ids", o.artifactIds);
  }
}
