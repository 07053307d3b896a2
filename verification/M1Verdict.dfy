/** One verdict per GDS run: evidence or an incomplete outcome, decided once; evidence exactly for a complete run. */
module M1Verdict {
  import opened Wrappers
  import opened Text
  import opened Values
  import opened Contracts
  import opened M1Model
  import opened M1Observe
  import opened M1Lineage

  // ----- when a run is complete -----

  predicate HasKind(artifacts: seq<Artifact>, kind: string) {
    exists i | 0 <= i < |artifacts| :: artifacts[i].kind == Some(kind)
  }

  /** The five layout artifacts, metrics that are all complete, a tool-chain snapshot and the plan. */
  predicate CompleteRun(artifacts: seq<Artifact>, metrics: seq<bool>) {
    && HasKind(artifacts, "gds") && HasKind(artifacts, "def") && HasKind(artifacts, "odb")
    && HasKind(artifacts, "netlist") && HasKind(artifacts, "report")
    && metrics != [] && (forall i | 0 <= i < |metrics| :: metrics[i])
    && (exists i | 0 <= i < |artifacts| :: artifacts[i].format == Some("toolchain-snapshot"))
    && (exists i | 0 <= i < |artifacts| :: artifacts[i].storeKey == Some("plan.json"))
  }

  lemma {:induction false} LastOfKindFinds(artifacts: seq<Artifact>, kind: string)
    ensures LastOfKind(artifacts, kind).Some? <==> HasKind(artifacts, kind)
    ensures LastOfKind(artifacts, kind).Some? ==> LastOfKind(artifacts, kind).value in artifacts
                                                  && LastOfKind(artifacts, kind).value.kind == Some(kind)
    decreases |artifacts|
  {
    if artifacts != [] {
      var init := artifacts[..|artifacts| - 1];
      LastOfKindFinds(init, kind);
      assert forall i | 0 <= i < |init| :: init[i] == artifacts[i];
    }
  }

  lemma {:induction false} FirstWithFinds(artifacts: seq<Artifact>, p: Artifact -> bool)
    ensures FirstWith(artifacts, p).Some? <==> exists i | 0 <= i < |artifacts| :: p(artifacts[i])
    decreases |artifacts|
  {
    if artifacts != [] {
      FirstWithFinds(artifacts[1..], p);
      assert forall i | 0 <= i < |artifacts[1..]| :: artifacts[1..][i] == artifacts[i + 1];
      assert forall i | 1 <= i < |artifacts| :: artifacts[i] == artifacts[1..][i - 1];
    }
  }

  lemma {:induction false} NoMissingKinds(artifacts: seq<Artifact>, kinds: seq<string>)
    ensures MissingKinds(artifacts, kinds) == [] <==> forall i | 0 <= i < |kinds| :: HasKind(artifacts, kinds[i])
    decreases |kinds|
  {
    hide HasKind;
    if kinds != [] {
      LastOfKindFinds(artifacts, kinds[0]);
      NoMissingKinds(artifacts, kinds[1..]);
      assert forall i | 1 <= i < |kinds| :: kinds[i] == kinds[1..][i - 1];
      assert forall i | 0 <= i < |kinds[1..]| :: kinds[1..][i] == kinds[i + 1];
    }
  }

  /** Nothing is missing exactly when the run is complete. */
  lemma NothingMissing(artifacts: seq<Artifact>, metrics: seq<bool>)
    ensures Missing(artifacts, metrics) == [] <==> CompleteRun(artifacts, metrics)
  {
    hide HasKind;
    NoMissingKinds(artifacts, SORTED_KINDS);
    var ks := SORTED_KINDS;
    assert (forall i | 0 <= i < |ks| :: HasKind(artifacts, ks[i])) <==>
      HasKind(artifacts, ks[0]) && HasKind(artifacts, ks[1]) && HasKind(artifacts, ks[2])
      && HasKind(artifacts, ks[3]) && HasKind(artifacts, ks[4]);
    var snapshot := (a: Artifact) => a.format == Some("toolchain-snapshot");
    var protocol := (a: Artifact) => a.storeKey == Some("plan.json");
    FirstWithFinds(artifacts, snapshot);
    FirstWithFinds(artifacts, protocol);
    assert (exists i | 0 <= i < |artifacts| :: snapshot(artifacts[i]))
      <==> exists i | 0 <= i < |artifacts| :: artifacts[i].format == Some("toolchain-snapshot");
    assert (exists i | 0 <= i < |artifacts| :: protocol(artifacts[i]))
      <==> exists i | 0 <= i < |artifacts| :: artifacts[i].storeKey == Some("plan.json");
  }

  // ----- the evidence of a complete run -----

  lemma {:induction false} RefsNameTheirKinds(artifacts: seq<Artifact>, kinds: seq<string>)
    requires KindRefs(artifacts, kinds).Some?
    ensures var refs := KindRefs(artifacts, kinds).value;
            |refs| == |kinds| && forall i | 0 <= i < |kinds| :: "artifact:" + kinds[i] + ":" <= refs[i]
    decreases |kinds|
  {
    if kinds != [] {
      RefsNameTheirKinds(artifacts, kinds[1..]);
      var refs := KindRefs(artifacts, kinds).value;
      forall i | 0 <= i < |kinds| ensures "artifact:" + kinds[i] + ":" <= refs[i] {
        if i > 0 { assert refs[i] == refs[1..][i - 1] && kinds[i] == kinds[1..][i - 1]; }
      }
    }
  }

  /** The references of the five kinds are pairwise distinct, as `EvidenceRef` demands, and one of them is the GDS. */
  lemma RefsAreDistinct(artifacts: seq<Artifact>)
    requires KindRefs(artifacts, REQUIRED_KINDS).Some?
    ensures var refs := KindRefs(artifacts, REQUIRED_KINDS).value;
            && |refs| == 5 && "artifact:gds" <= refs[0]
            && forall i, j | 0 <= i < j < |refs| :: refs[i] != refs[j]
  {
    var refs := KindRefs(artifacts, REQUIRED_KINDS).value;
    RefsNameTheirKinds(artifacts, REQUIRED_KINDS);
    hide KindRefs;
    var initials := ['g', 'd', 'o', 'n', 'r'];
    forall i | 0 <= i < 5 ensures |refs[i]| > 9 && refs[i][9] == initials[i] {
      var p := "artifact:" + REQUIRED_KINDS[i] + ":";
      assert p[9] == REQUIRED_KINDS[i][0] == initials[i];
      assert p <= refs[i];
    }
    assert refs[0][9..12] == "gds" by {
      assert "artifact:" + "gds" + ":" <= refs[0];
      assert ("artifact:" + "gds" + ":")[9..12] == "gds";
    }
    assert refs[0][..12] == "artifact:gds";
  }

  lemma {:induction false} RefsComeFromTheRun(artifacts: seq<Artifact>, kinds: seq<string>)
    requires KindRefs(artifacts, kinds).Some?
    ensures var refs := KindRefs(artifacts, kinds).value;
            |refs| == |kinds| && forall i | 0 <= i < |kinds| :: NamesTheLast(artifacts, kinds[i], refs[i])
    decreases |kinds|
  {
    hide NamesTheLast;
    if kinds != [] {
      RefsComeFromTheRun(artifacts, kinds[1..]);
      var refs := KindRefs(artifacts, kinds).value;
      LastIsNamed(artifacts, kinds[0]);
      forall i | 0 <= i < |kinds| ensures NamesTheLast(artifacts, kinds[i], refs[i]) {
        if i > 0 { assert refs[i] == refs[1..][i - 1] && kinds[i] == kinds[1..][i - 1]; }
      }
    }
  }

  /** A reference that names the run's last artifact of that kind. */
  predicate NamesTheLast(artifacts: seq<Artifact>, kind: string, ref: string) {
    exists n | 0 <= n < |artifacts| ::
      && artifacts[n].kind == Some(kind)
      && (forall m | n < m < |artifacts| :: artifacts[m].kind != Some(kind))
      && artifacts[n].artifactId.Some? && ref == "artifact:" + kind + ":" + artifacts[n].artifactId.value
  }

  lemma {:induction false} LastOfKindIsLast(artifacts: seq<Artifact>, kind: string) returns (n: nat)
    requires LastOfKind(artifacts, kind).Some?
    ensures n < |artifacts| && artifacts[n] == LastOfKind(artifacts, kind).value && artifacts[n].kind == Some(kind)
    ensures forall m | n < m < |artifacts| :: artifacts[m].kind != Some(kind)
    decreases |artifacts|
  {
    n := |artifacts| - 1;
    if artifacts[n].kind != Some(kind) {
      n := LastOfKindIsLast(artifacts[..n], kind);
    }
  }

  lemma LastIsNamed(artifacts: seq<Artifact>, kind: string)
    requires LastOfKind(artifacts, kind).Some? && LastOfKind(artifacts, kind).value.artifactId.Some?
    ensures NamesTheLast(artifacts, kind,
                         "artifact:" + kind + ":" + LastOfKind(artifacts, kind).value.artifactId.value)
  {
    var n := LastOfKindIsLast(artifacts, kind);
  }

  /** The position of the first artifact that satisfies `p`. */
  lemma {:induction false} FirstWithIsFirst(artifacts: seq<Artifact>, p: Artifact -> bool) returns (n: nat)
    requires FirstWith(artifacts, p).Some?
    ensures n < |artifacts| && artifacts[n] == FirstWith(artifacts, p).value && p(artifacts[n])
    ensures forall m | 0 <= m < n :: !p(artifacts[m])
    decreases |artifacts|
  {
    n := 0;
    if !p(artifacts[0]) {
      var k := FirstWithIsFirst(artifacts[1..], p);
      assert forall m | 0 < m < k + 1 :: artifacts[m] == artifacts[1..][m - 1];
      n := k + 1;
    }
  }

  /** The digest of the run's first tool-chain snapshot. */
  predicate DigestsSnapshot(artifacts: seq<Artifact>, digest: string) {
    exists n | 0 <= n < |artifacts| ::
      && artifacts[n].format == Some("toolchain-snapshot") && artifacts[n].sha256 == Some(digest)
      && forall m | 0 <= m < n :: artifacts[m].format != Some("toolchain-snapshot")
  }

  /** The digest of the run's first plan. */
  predicate DigestsPlan(artifacts: seq<Artifact>, digest: string) {
    exists n | 0 <= n < |artifacts| ::
      && artifacts[n].storeKey == Some("plan.json") && artifacts[n].sha256 == Some(digest)
      && forall m | 0 <= m < n :: artifacts[m].storeKey != Some("plan.json")
  }

  /** The references of the evidence: the run's last artifact of each kind, layout first. */
  predicate NamesTheKinds(artifacts: seq<Artifact>, refs: seq<string>) {
    && |refs| == 5
    && NamesTheLast(artifacts, "gds", refs[0]) && NamesTheLast(artifacts, "def", refs[1])
    && NamesTheLast(artifacts, "odb", refs[2]) && NamesTheLast(artifacts, "netlist", refs[3])
    && NamesTheLast(artifacts, "report", refs[4])
  }

  /** The evidence is about the named run, for this PDK and at this time, of a version that passed both checks, for its
      owner; every digest and reference in it was reported by that run, and its own digest is that of what it claims. */
  predicate TellsTheRun(env: Env, s: State, e: EvidenceRef, id: string, runId: string, artifacts: seq<Artifact>,
                        pdk: string, now: string)
  {
    && e.evidenceId == "evidence:" + runId && e.runId == runId && e.candidateId == id
    && e.evidenceKind == "rtl_to_gds" && e.status == "succeeded" && e.schemaVersion == 1
    && id in s.versions && s.versions[id].verificationStatus == Passed && s.versions[id].simulationStatus == Passed
    && e.specId == s.versions[id].specId && e.specId in s.sessions && e.ownerId == s.sessions[e.specId].ownerId
    && NamesTheKinds(artifacts, e.artifactIds)
    && DigestsSnapshot(artifacts, e.toolchainDigest) && DigestsPlan(artifacts, e.protocolDigest)
    && e.claimBoundary == "Verified " + pdk + " RTL-to-GDS teaching run." && e.createdAt == now
    && e.sha256 == env.shaOfValue(VMap(map["candidate_id" := VStr(id), "run_id" := VStr(runId),
                                           "artifact_ids" := Strings(e.artifactIds), "pdk" := VStr(pdk)]))
  }

  lemma BuiltEvidenceIsReported(env: Env, s: State, id: string, runId: string, artifacts: seq<Artifact>, pdk: string,
                                now: string)
    requires GdsEvidence(env, s, id, runId, artifacts, pdk, now).Some?
    ensures var e := GdsEvidence(env, s, id, runId, artifacts, pdk, now).value;
            && NamesTheKinds(artifacts, e.artifactIds)
            && DigestsSnapshot(artifacts, e.toolchainDigest) && DigestsPlan(artifacts, e.protocolDigest)
  {
    hide KindRefs, FirstWith, NamesTheLast, Strings;
    var e := GdsEvidence(env, s, id, runId, artifacts, pdk, now).value;
    RefsComeFromTheRun(artifacts, REQUIRED_KINDS);
    assert NamesTheKinds(artifacts, e.artifactIds) by {
      assert forall i | 0 <= i < 5 :: NamesTheLast(artifacts, REQUIRED_KINDS[i], e.artifactIds[i]);
    }
    var snapshot := (a: Artifact) => a.format == Some("toolchain-snapshot");
    var n := FirstWithIsFirst(artifacts, snapshot);
    var plan := (a: Artifact) => a.storeKey == Some("plan.json");
    var m := FirstWithIsFirst(artifacts, plan);
    assert DigestsSnapshot(artifacts, e.toolchainDigest) by {
      assert forall k | 0 <= k < n :: !snapshot(artifacts[k]);
    }
    assert DigestsPlan(artifacts, e.protocolDigest) by {
      assert forall k | 0 <= k < m :: !plan(artifacts[k]);
    }
  }

  lemma BuiltClaims(env: Env, s: State, id: string, runId: string, artifacts: seq<Artifact>, pdk: string, now: string)
    requires GdsEvidence(env, s, id, runId, artifacts, pdk, now).Some?
    ensures var e := GdsEvidence(env, s, id, runId, artifacts, pdk, now).value;
            && e.evidenceId == "evidence:" + runId && e.schemaVersion == 1
            && e.claimBoundary == "Verified " + pdk + " RTL-to-GDS teaching run." && e.createdAt == now
            && e.sha256 == env.shaOfValue(VMap(map["candidate_id" := VStr(id), "run_id" := VStr(runId),
                                                   "artifact_ids" := Strings(e.artifactIds), "pdk" := VStr(pdk)]))
  {
    hide KindRefs, Snapshot, Protocol, Strings;
  }

  /** Main result: evidence a recording newly files tells the run. */
  lemma NewEvidenceTellsTheRun(env: Env, s: State, id: string, runId: string, artifacts: seq<Artifact>, pdk: string,
                               metrics: seq<bool>, now: string)
    requires VerdictOf(s, runId).None?
    ensures var (t, r) := RecordGdsEvidence(env, s, id, runId, artifacts, pdk, metrics, now);
            r.Return? && r.value.Evidenced? ==>
              && t.evidence == s.evidence["evidence:" + runId := r.value.evidence] && t.outcomes == s.outcomes
              && TellsTheRun(env, s, r.value.evidence, id, runId, artifacts, pdk, now)
  {
    var built := GdsEvidence(env, s, id, runId, artifacts, pdk, now);
    EvidenceIdOf(env, s, id, runId, artifacts, pdk, now);
    if built.Some? {
      BuiltEvidenceIsReported(env, s, id, runId, artifacts, pdk, now);
      BuiltClaims(env, s, id, runId, artifacts, pdk, now);
      RecordedForPassed(env, s, built.value);
    }
    hide Missing, GdsOutcome, M1RunOutcome.Valid, EvidenceRef.Valid, EncodeEvidence, RecordEvidence;
    hide HasGdsArtifact, GdsEvidence, NamesTheKinds, DigestsSnapshot, DigestsPlan, Strings;
  }

  // ----- the outcome of an incomplete run -----

  /** What the reason of an incomplete outcome may name, in its order. */
  const PARTS := ["def", "gds", "netlist", "odb", "report", "metrics", "toolchain_snapshot", "protocol_digest"]

  /** The run has no such part: no artifact of the kind, no or incomplete metrics, no snapshot, no plan. */
  predicate Lacks(artifacts: seq<Artifact>, metrics: seq<bool>, part: string) {
    if part == "metrics" then metrics == [] || exists i | 0 <= i < |metrics| :: !metrics[i]
    else if part == "toolchain_snapshot" then
      forall i | 0 <= i < |artifacts| :: artifacts[i].format != Some("toolchain-snapshot")
    else if part == "protocol_digest" then forall i | 0 <= i < |artifacts| :: artifacts[i].storeKey != Some("plan.json")
    else forall i | 0 <= i < |artifacts| :: artifacts[i].kind != Some(part)
  }

  function Lacking(artifacts: seq<Artifact>, metrics: seq<bool>, parts: seq<string>): seq<string> {
    if parts == [] then []
    else (if Lacks(artifacts, metrics, parts[0]) then [parts[0]] else []) + Lacking(artifacts, metrics, parts[1..])
  }

  /** Words with a comma and a blank between each two. */
  function Listed(words: seq<string>): string {
    if words == [] then ""
    else
      var most := words[..|words| - 1];
      Listed(most) + (if most == [] then "" else ", ") + words[|words| - 1]
  }

  lemma {:induction false} ListedIsJoined(first: string, words: seq<string>)
    ensures Listed([first] + words) == first + (if words == [] then "" else ", " + Listed(words))
    decreases |words|
  {
    if words != [] {
      var most := words[..|words| - 1];
      assert ([first] + words)[..|words|] == [first] + most;
      ListedIsJoined(first, most);
    }
  }

  lemma {:induction false} JoinCommaLists(words: seq<string>)
    ensures JoinComma(words) == Listed(words)
    decreases |words|
  {
    if |words| == 1 {
      assert Listed(words[..0]) == "";
    } else if |words| > 1 {
      JoinCommaLists(words[1..]);
      ListedIsJoined(words[0], words[1..]);
      assert [words[0]] + words[1..] == words;
    }
  }

  lemma {:induction false} LackingAppend(artifacts: seq<Artifact>, metrics: seq<bool>, a: seq<string>, b: seq<string>)
    ensures Lacking(artifacts, metrics, a + b) == Lacking(artifacts, metrics, a) + Lacking(artifacts, metrics, b)
    decreases |a|
  {
    hide Lacks;
    if a == [] {
      assert a + b == b;
    } else {
      LackingAppend(artifacts, metrics, a[1..], b);
      assert (a + b)[1..] == a[1..] + b;
    }
  }

  lemma {:induction false} MissingKindsAreLacking(artifacts: seq<Artifact>, metrics: seq<bool>, kinds: seq<string>)
    requires forall i | 0 <= i < |kinds| :: kinds[i] !in {"metrics", "toolchain_snapshot", "protocol_digest"}
    ensures MissingKinds(artifacts, kinds) == Lacking(artifacts, metrics, kinds)
    decreases |kinds|
  {
    hide LastOfKind;
    if kinds != [] {
      LastOfKindFinds(artifacts, kinds[0]);
      MissingKindsAreLacking(artifacts, metrics, kinds[1..]);
      assert kinds[0] !in {"metrics", "toolchain_snapshot", "protocol_digest"};
    }
  }

  lemma OnePart(artifacts: seq<Artifact>, metrics: seq<bool>, part: string)
    ensures Lacking(artifacts, metrics, [part]) == if Lacks(artifacts, metrics, part) then [part] else []
  {
    hide Lacks;
    assert Lacking(artifacts, metrics, [part][1..]) == [];
  }

  lemma LacksOthers(artifacts: seq<Artifact>, metrics: seq<bool>)
    ensures Lacks(artifacts, metrics, "metrics") <==> metrics == [] || false in metrics
    ensures Lacks(artifacts, metrics, "toolchain_snapshot") <==> Snapshot(artifacts).None?
    ensures Lacks(artifacts, metrics, "protocol_digest") <==> Protocol(artifacts).None?
  {
    var snapshot := (a: Artifact) => a.format == Some("toolchain-snapshot");
    var protocol := (a: Artifact) => a.storeKey == Some("plan.json");
    FirstWithFinds(artifacts, snapshot);
    FirstWithFinds(artifacts, protocol);
    assert (exists i | 0 <= i < |artifacts| :: snapshot(artifacts[i]))
      <==> !Lacks(artifacts, metrics, "toolchain_snapshot");
    assert (exists i | 0 <= i < |artifacts| :: protocol(artifacts[i]))
      <==> !Lacks(artifacts, metrics, "protocol_digest");
  }

  lemma MissingIsLacking(artifacts: seq<Artifact>, metrics: seq<bool>)
    ensures Missing(artifacts, metrics) == Lacking(artifacts, metrics, PARTS)
  {
    hide Lacks, Lacking, MissingKinds, Snapshot, Protocol;
    var kinds := ["def", "gds", "netlist", "odb", "report"];
    MissingKindsAreLacking(artifacts, metrics, kinds);
    LacksOthers(artifacts, metrics);
    OnePart(artifacts, metrics, "metrics");
    OnePart(artifacts, metrics, "toolchain_snapshot");
    OnePart(artifacts, metrics, "protocol_digest");
    LackingAppend(artifacts, metrics, kinds, ["metrics"]);
    LackingAppend(artifacts, metrics, kinds + ["metrics"], ["toolchain_snapshot"]);
    LackingAppend(artifacts, metrics, kinds + ["metrics"] + ["toolchain_snapshot"], ["protocol_digest"]);
    assert PARTS == kinds + ["metrics"] + ["toolchain_snapshot"] + ["protocol_digest"];
  }

  /** An artifact record that says what it is and under which id it is kept. */
  predicate IsNamed(a: Artifact) {
    a.kind.Some? && a.artifactId.Some?
  }

  /** `ids` names the artifacts at the positions `at`, which are those of all named artifacts in order. */
  predicate NamesAll(artifacts: seq<Artifact>, ids: seq<string>, at: seq<nat>) {
    && |at| == |ids|
    && (forall j, k | 0 <= j < k < |at| :: at[j] < at[k])
    && (forall i | 0 <= i < |artifacts| :: IsNamed(artifacts[i]) <==> i in at)
    && (forall k | 0 <= k < |at| ::
          && at[k] < |artifacts| && IsNamed(artifacts[at[k]])
          && ids[k] == "artifact:" + artifacts[at[k]].kind.value + ":" + artifacts[at[k]].artifactId.value)
  }

  lemma {:induction false} ListedAppends(artifacts: seq<Artifact>, a: Artifact)
    ensures ListedArtifacts(artifacts + [a])
      == ListedArtifacts(artifacts)
         + if IsNamed(a) then ["artifact:" + a.kind.value + ":" + a.artifactId.value] else []
    decreases |artifacts|
  {
    if artifacts == [] {
      assert ([a])[1..] == [];
    } else {
      ListedAppends(artifacts[1..], a);
      assert (artifacts + [a])[1..] == artifacts[1..] + [a];
    }
  }

  lemma {:induction false} ListedNamesAll(artifacts: seq<Artifact>) returns (at: seq<nat>)
    ensures NamesAll(artifacts, ListedArtifacts(artifacts), at)
    decreases |artifacts|
  {
    at := [];
    if artifacts != [] {
      var init, a := artifacts[..|artifacts| - 1], artifacts[|artifacts| - 1];
      ListedAppends(init, a);
      assert artifacts == init + [a];
      var before := ListedNamesAll(init);
      at := before + if IsNamed(a) then [|init|] else [];
      hide ListedArtifacts, IsNamed;
      NamesOneMore(init, a, ListedArtifacts(init), before);
    }
  }

  lemma NamesOneMore(artifacts: seq<Artifact>, a: Artifact, ids: seq<string>, at: seq<nat>)
    requires NamesAll(artifacts, ids, at)
    ensures NamesAll(artifacts + [a],
                     ids + (if IsNamed(a) then ["artifact:" + a.kind.value + ":" + a.artifactId.value] else []),
                     at + if IsNamed(a) then [|artifacts|] else [])
  {
    var longer, later := artifacts + [a], at + if IsNamed(a) then [|artifacts|] else [];
    forall i | 0 <= i < |longer| ensures IsNamed(longer[i]) <==> i in later {
      assert i < |artifacts| ==> longer[i] == artifacts[i] && (i in later <==> i in at);
      assert i == |artifacts| ==> i !in at;
    }
    hide IsNamed;
  }

  /** Main result: an outcome a recording newly files is the run's, for the version and the PDK it was recorded for; its
      reason names exactly the parts the run lacks, and its references are all named artifacts of the run in order. */
  lemma NewOutcomeTellsTheRun(env: Env, s: State, id: string, runId: string, artifacts: seq<Artifact>, pdk: string,
                              metrics: seq<bool>, now: string)
    requires VerdictOf(s, runId).None?
    ensures var (t, r) := RecordGdsEvidence(env, s, id, runId, artifacts, pdk, metrics, now);
            r.Return? && r.value.GdsIncomplete? ==>
              var o := r.value.outcome;
              && t.outcomes == s.outcomes[runId := o] && t.evidence == s.evidence
              && o.runId == runId && o.candidateId == id && o.pdk == pdk && o.status == "gds_incomplete"
              && o.reason == "missing " + Listed(Lacking(artifacts, metrics, PARTS))
              && exists at :: NamesAll(artifacts, o.artifactIds, at)
  {
    MissingIsLacking(artifacts, metrics);
    JoinCommaLists(Missing(artifacts, metrics));
    var at := ListedNamesAll(artifacts);
    var e := GdsEvidence(env, s, id, runId, artifacts, pdk, now);
    hide Missing, Lacking, Listed, JoinComma, ListedArtifacts, M1RunOutcome.Valid, GdsEvidence, RecordEvidence;
    hide EncodeOutcome, NamesAll;
  }

  lemma RecordedForPassed(env: Env, s: State, e: EvidenceRef)
    ensures RecordEvidence(env, s, e).1.Return? && IsGdsSuccess(e) ==>
              && RecordEvidence(env, s, e).0 == PutEvidence(s, e) && RecordEvidence(env, s, e).1.value == e
              && e.candidateId in s.versions && e.specId in s.sessions
              && s.versions[e.candidateId].verificationStatus == Passed
              && s.versions[e.candidateId].simulationStatus == Passed
              && e.specId == s.versions[e.candidateId].specId && e.ownerId == s.sessions[e.specId].ownerId
  {
    hide EvidenceRef.Valid, HasGdsArtifact, IsGdsSuccess;
  }

  // ----- one verdict -----

  function VerdictOf(s: State, runId: string): Option<Verdict> {
    if "evidence:" + runId in s.evidence then Some(Evidenced(s.evidence["evidence:" + runId]))
    else if runId in s.outcomes then Some(GdsIncomplete(s.outcomes[runId]))
    else None
  }

  lemma EvidenceIdOf(env: Env, s: State, id: string, runId: string, artifacts: seq<Artifact>, pdk: string, now: string)
    ensures var e := GdsEvidence(env, s, id, runId, artifacts, pdk, now);
            e.Some? ==> && e.value.evidenceId == "evidence:" + runId && e.value.runId == runId
                        && e.value.candidateId == id && IsGdsSuccess(e.value)
                        && KindRefs(artifacts, REQUIRED_KINDS) == Some(e.value.artifactIds)
  {
    hide KindRefs, Snapshot, Protocol, Strings;
  }

  lemma RecordedOrRefused(env: Env, s: State, e: EvidenceRef)
    ensures var (t, r) := RecordEvidence(env, s, e);
            && (r.Return? ==> t == PutEvidence(s, e) && r.value == e && e.evidenceId !in s.evidence)
            && (r.Raise? ==> t == s)
  {
    hide EvidenceRef.Valid, IsGdsSuccess, HasGdsArtifact;
  }

  predicate RecordsOutcome(s: State, t: State, r: Reply<Verdict>, runId: string) {
    && r.Return? && r.value.GdsIncomplete? && r.value.outcome.runId == runId && t == PutOutcome(s, r.value.outcome)
  }

  predicate RecordsEvidence(s: State, t: State, r: Reply<Verdict>, runId: string) {
    && r.Return? && r.value.Evidenced? && t == PutEvidence(s, r.value.evidence)
    && r.value.evidence.evidenceId == "evidence:" + runId && r.value.evidence.runId == runId
  }

  /** The shapes a recording can have. */
  lemma RecordShape(env: Env, s: State, id: string, runId: string, artifacts: seq<Artifact>, pdk: string,
                    metrics: seq<bool>, now: string)
    ensures var (t, r) := RecordGdsEvidence(env, s, id, runId, artifacts, pdk, metrics, now);
            if VerdictOf(s, runId).Some? then t == s && r == Return(VerdictOf(s, runId).value)
            else (t == s && r.Raise?)
                 || (if CompleteRun(artifacts, metrics) then RecordsEvidence(s, t, r, runId)
                     else RecordsOutcome(s, t, r, runId))
  {
    NothingMissing(artifacts, metrics);
    var e := GdsEvidence(env, s, id, runId, artifacts, pdk, now);
    EvidenceIdOf(env, s, id, runId, artifacts, pdk, now);
    OutcomeRunId(id, runId, artifacts, pdk, metrics);
    hide Missing, CompleteRun, GdsOutcome, GdsEvidence, M1RunOutcome.Valid, PutOutcome, RecordEvidence, PutEvidence;
    var (t, r) := RecordGdsEvidence(env, s, id, runId, artifacts, pdk, metrics, now);
    if VerdictOf(s, runId).None? && r.Return? {
      if CompleteRun(artifacts, metrics) {
        var (t1, r1) := RecordEvidence(env, s, e.value);
        RecordedOrRefused(env, s, e.value);
        assert t == t1 && r1.Return? && r == Return(Evidenced(r1.value));
      } else {
        assert r == Return(GdsIncomplete(GdsOutcome(id, runId, artifacts, pdk, metrics)));
      }
    } else if VerdictOf(s, runId).None? {
      if e.Some? { RecordedOrRefused(env, s, e.value); }
      assert t == s;
    }
  }

  lemma OutcomeRunId(id: string, runId: string, artifacts: seq<Artifact>, pdk: string, metrics: seq<bool>)
    ensures GdsOutcome(id, runId, artifacts, pdk, metrics).runId == runId
  {
  }

  /** Main result: recording a run twice returns the first verdict; the first verdict is evidence exactly for a complete
      run; a call that raises changes nothing. */
  lemma VerdictIsDecidedOnce(env: Env, s: State, id: string, runId: string, artifacts: seq<Artifact>, pdk: string,
                             metrics: seq<bool>, now: string)
    ensures var (t, r) := RecordGdsEvidence(env, s, id, runId, artifacts, pdk, metrics, now);
            && (VerdictOf(s, runId).Some? ==> t == s && r == Return(VerdictOf(s, runId).value))
            && (r.Raise? ==> t == s)
            && (r.Return? ==> VerdictOf(t, runId) == Some(r.value))
            && (VerdictOf(s, runId).None? && r.Return? ==>
                  (r.value.Evidenced? <==> CompleteRun(artifacts, metrics)))
  {
    RecordShape(env, s, id, runId, artifacts, pdk, metrics, now);
    hide RecordGdsEvidence, CompleteRun, EncodeOutcome, EncodeEvidence;
  }

  // ----- when a recording returns -----

  predicate IdOf(artifacts: seq<Artifact>, kind: string) {
    LastOfKind(artifacts, kind).Some? && LastOfKind(artifacts, kind).value.artifactId.Some?
  }

  function RefOf(artifacts: seq<Artifact>, kind: string): string
    requires IdOf(artifacts, kind)
  {
    "artifact:" + kind + ":" + LastOfKind(artifacts, kind).value.artifactId.value
  }

  lemma {:induction false} KindRefsAre(artifacts: seq<Artifact>, kinds: seq<string>)
    ensures KindRefs(artifacts, kinds).Some? <==> forall i | 0 <= i < |kinds| :: IdOf(artifacts, kinds[i])
    ensures KindRefs(artifacts, kinds).Some? ==>
              && |KindRefs(artifacts, kinds).value| == |kinds|
              && forall i | 0 <= i < |kinds| :: KindRefs(artifacts, kinds).value[i] == RefOf(artifacts, kinds[i])
    decreases |kinds|
  {
    hide LastOfKind;
    if kinds != [] {
      var rest := kinds[1..];
      KindRefsAre(artifacts, rest);
      assert forall i | 0 <= i < |rest| :: rest[i] == kinds[i + 1];
      assert forall i | 1 <= i < |kinds| :: kinds[i] == rest[i - 1];
    }
  }

  /** The members of the run's report that evidence is built from have the form the record asks for. */
  predicate WellReported(artifacts: seq<Artifact>) {
    && (forall i | 0 <= i < |REQUIRED_KINDS| ::
          IdOf(artifacts, REQUIRED_KINDS[i]) && |RefOf(artifacts, REQUIRED_KINDS[i])| <= 256)
    && Snapshot(artifacts).Some? && Snapshot(artifacts).value.sha256.Some?
    && IsDigest(Snapshot(artifacts).value.sha256.value)
    && Protocol(artifacts).Some? && Protocol(artifacts).value.sha256.Some?
    && IsDigest(Protocol(artifacts).value.sha256.value)
  }

  /** The version is stored under a stored session, passes both checks, and all names are identifiers. */
  predicate Fileable(env: Env, s: State, id: string, runId: string, pdk: string, now: string) {
    && id in s.versions && s.versions[id].verificationStatus == Passed && s.versions[id].simulationStatus == Passed
    && s.versions[id].specId in s.sessions
    && IsIdentifier("evidence:" + runId) && IsIdentifier(runId) && IsIdentifier(id)
    && IsIdentifier(s.versions[id].specId) && IsIdentifier(s.sessions[s.versions[id].specId].ownerId)
    && IsText("Verified " + pdk + " RTL-to-GDS teaching run.", 4000) && env.isInstant(now)
  }

  lemma RefsHaveTheirForm(artifacts: seq<Artifact>)
    requires KindRefs(artifacts, REQUIRED_KINDS).Some?
    ensures var refs := KindRefs(artifacts, REQUIRED_KINDS).value;
            && |refs| == 5
            && ((forall i | 0 <= i < |refs| :: "artifact:" <= refs[i] && |refs[i]| <= 256)
                <==> forall i | 0 <= i < |REQUIRED_KINDS| ::
                       IdOf(artifacts, REQUIRED_KINDS[i]) && |RefOf(artifacts, REQUIRED_KINDS[i])| <= 256)
  {
    var kinds := REQUIRED_KINDS;
    KindRefsAre(artifacts, kinds);
    hide KindRefs, LastOfKind;
    var refs := KindRefs(artifacts, kinds).value;
    forall i | 0 <= i < |refs| ensures "artifact:" <= refs[i] {
      assert refs[i] == "artifact:" + (kinds[i] + ":" + LastOfKind(artifacts, kinds[i]).value.artifactId.value);
    }
  }

  lemma KindIsIdentifier()
    ensures IsIdentifier("rtl_to_gds") && "succeeded" in {"pending", "succeeded", "failed", "incomplete", "rejected"}
  {
  }

  /** Built evidence validates exactly when names and reported members have their form. */
  lemma BuiltEvidenceIsValid(env: Env, s: State, id: string, runId: string, artifacts: seq<Artifact>, pdk: string,
                             now: string)
    requires env.Lawful() && GdsEvidence(env, s, id, runId, artifacts, pdk, now).Some?
    requires id in s.versions && s.versions[id].specId in s.sessions
    requires s.versions[id].verificationStatus == Passed && s.versions[id].simulationStatus == Passed
    ensures GdsEvidence(env, s, id, runId, artifacts, pdk, now).value.Valid(env)
      <==> Fileable(env, s, id, runId, pdk, now) && WellReported(artifacts)
  {
    BuiltMembers(env, s, id, runId, artifacts, pdk, now);
    RefsAreDistinct(artifacts);
    RefsHaveTheirForm(artifacts);
    KindIsIdentifier();
    hide GdsEvidence, KindRefs, Snapshot, Protocol, IsIdentifier, IsDigest, IsText, Strings, IdOf, RefOf;
  }

  lemma BuiltMembers(env: Env, s: State, id: string, runId: string, artifacts: seq<Artifact>, pdk: string, now: string)
    requires env.Lawful() && GdsEvidence(env, s, id, runId, artifacts, pdk, now).Some?
    ensures var e := GdsEvidence(env, s, id, runId, artifacts, pdk, now).value;
            && id in s.versions && s.versions[id].specId in s.sessions
            && e.evidenceId == "evidence:" + runId && e.runId == runId && e.candidateId == id
            && e.specId == s.versions[id].specId && e.ownerId == s.sessions[e.specId].ownerId
            && KindRefs(artifacts, REQUIRED_KINDS) == Some(e.artifactIds)
            && e.evidenceKind == "rtl_to_gds" && e.status == "succeeded" && IsDigest(e.sha256)
            && Snapshot(artifacts).Some? && Snapshot(artifacts).value.sha256 == Some(e.toolchainDigest)
            && Protocol(artifacts).Some? && Protocol(artifacts).value.sha256 == Some(e.protocolDigest)
            && e.claimBoundary == "Verified " + pdk + " RTL-to-GDS teaching run." && e.createdAt == now
            && e.schemaVersion == SCHEMA_VERSION
  {
    hide KindRefs, Snapshot, Protocol, IsDigest, Strings;
  }

  lemma FileableIsThere(env: Env, s: State, id: string, runId: string, pdk: string, now: string)
    ensures Fileable(env, s, id, runId, pdk, now) ==>
              && id in s.versions && s.versions[id].specId in s.sessions
              && s.versions[id].verificationStatus == Passed && s.versions[id].simulationStatus == Passed
  {
  }

  lemma BuiltExactlyWhen(env: Env, s: State, id: string, runId: string, artifacts: seq<Artifact>, pdk: string,
                         now: string)
    requires id in s.versions && s.versions[id].specId in s.sessions
    ensures WellReported(artifacts) ==> GdsEvidence(env, s, id, runId, artifacts, pdk, now).Some?
  {
    KindRefsAre(artifacts, REQUIRED_KINDS);
    hide KindRefs, IdOf, RefOf, IsDigest, FirstWith, Strings;
  }

  /** Valid evidence of a passed version for its owner is recorded. */
  lemma RecordsExactlyWhen(env: Env, s: State, e: EvidenceRef)
    requires IsGdsSuccess(e) && HasGdsArtifact(e) && e.evidenceId !in s.evidence
    requires e.candidateId in s.versions && e.specId == s.versions[e.candidateId].specId && e.specId in s.sessions
    requires e.ownerId == s.sessions[e.specId].ownerId
    ensures RecordEvidence(env, s, e).1.Return?
      <==> && e.Valid(env) && s.versions[e.candidateId].verificationStatus == Passed
           && s.versions[e.candidateId].simulationStatus == Passed
  {
    hide EvidenceRef.Valid, IsGdsSuccess, HasGdsArtifact;
  }

  lemma BuiltNames(env: Env, s: State, id: string, runId: string, artifacts: seq<Artifact>, pdk: string, now: string)
    requires GdsEvidence(env, s, id, runId, artifacts, pdk, now).Some?
    ensures var e := GdsEvidence(env, s, id, runId, artifacts, pdk, now).value;
            && e.evidenceId == "evidence:" + runId && e.candidateId == id && IsGdsSuccess(e) && HasGdsArtifact(e)
            && id in s.versions && e.specId == s.versions[id].specId && e.specId in s.sessions
            && e.ownerId == s.sessions[e.specId].ownerId
  {
    RefsAreDistinct(artifacts);
    hide KindRefs, Snapshot, Protocol, Strings;
    var e := GdsEvidence(env, s, id, runId, artifacts, pdk, now).value;
    assert "artifact:gds" <= e.artifactIds[0];
  }

  /** Main result: the first recording of a complete run returns exactly when its version has passed and is stored with
      its session, the names are identifiers, and the reported ids and digests have their form; otherwise it raises. */
  lemma CompleteRunsReturnExactlyWhen(env: Env, s: State, id: string, runId: string, artifacts: seq<Artifact>,
                                      pdk: string, metrics: seq<bool>, now: string)
    requires env.Lawful() && VerdictOf(s, runId).None? && CompleteRun(artifacts, metrics)
    ensures RecordGdsEvidence(env, s, id, runId, artifacts, pdk, metrics, now).1.Return?
      <==> Fileable(env, s, id, runId, pdk, now) && WellReported(artifacts)
  {
    NothingMissing(artifacts, metrics);
    FileableIsThere(env, s, id, runId, pdk, now);
    hide Missing, CompleteRun, GdsOutcome, M1RunOutcome.Valid, Fileable, WellReported, EvidenceRef.Valid;
    var e := GdsEvidence(env, s, id, runId, artifacts, pdk, now);
    if e.Some? {
      BuiltNames(env, s, id, runId, artifacts, pdk, now);
      RecordsExactlyWhen(env, s, e.value);
      if s.versions[id].verificationStatus == Passed && s.versions[id].simulationStatus == Passed {
        BuiltEvidenceIsValid(env, s, id, runId, artifacts, pdk, now);
      }
    } else if id in s.versions && s.versions[id].specId in s.sessions {
      BuiltExactlyWhen(env, s, id, runId, artifacts, pdk, now);
    }
    hide GdsEvidence, RecordEvidence, HasGdsArtifact, IsGdsSuccess;
  }

  lemma ReasonIsText(tail: string)
    ensures NonBlank("missing " + tail)
  {
    assert !IsSpace(("missing " + tail)[0]);
  }

  predicate AllBounded(ids: seq<string>) {
    forall i | 0 <= i < |ids| :: IsBoundedId(ids[i])
  }

  /** The references to the run's named artifacts are bounded identifiers. */
  predicate NamesAreBounded(artifacts: seq<Artifact>) {
    forall i | 0 <= i < |artifacts| && IsNamed(artifacts[i]) ::
      IsBoundedId("artifact:" + artifacts[i].kind.value + ":" + artifacts[i].artifactId.value)
  }

  lemma ListedAreBounded(artifacts: seq<Artifact>)
    ensures AllBounded(ListedArtifacts(artifacts)) <==> NamesAreBounded(artifacts)
  {
    hide IsBoundedId, ListedArtifacts;
    var at := ListedNamesAll(artifacts);
    var ids := ListedArtifacts(artifacts);
    if AllBounded(ids) {
      forall i | 0 <= i < |artifacts| && IsNamed(artifacts[i])
        ensures IsBoundedId("artifact:" + artifacts[i].kind.value + ":" + artifacts[i].artifactId.value)
      {
        var k :| 0 <= k < |at| && at[k] == i;
        assert IsBoundedId(ids[k]);
      }
    }
    if NamesAreBounded(artifacts) {
      forall k | 0 <= k < |ids| ensures IsBoundedId(ids[k]) { assert IsNamed(artifacts[at[k]]); }
    }
  }

  /** The first recording of an incomplete run returns exactly when all its names, and those of its artifacts, are
      bounded identifiers. */
  lemma IncompleteRunsReturnExactlyWhen(env: Env, s: State, id: string, runId: string, artifacts: seq<Artifact>,
                                        pdk: string, metrics: seq<bool>, now: string)
    requires VerdictOf(s, runId).None? && !CompleteRun(artifacts, metrics)
    ensures RecordGdsEvidence(env, s, id, runId, artifacts, pdk, metrics, now).1.Return?
      <==> IsBoundedId(runId) && IsBoundedId(id) && IsBoundedId(pdk) && NamesAreBounded(artifacts)
  {
    NothingMissing(artifacts, metrics);
    ListedAreBounded(artifacts);
    OutcomeIsValid(id, runId, artifacts, pdk, metrics);
    hide Missing, CompleteRun, GdsOutcome, M1RunOutcome.Valid, IsBoundedId, AllBounded, ListedArtifacts, GdsEvidence;
    hide PutOutcome, RecordEvidence, NamesAreBounded;
  }

  lemma OutcomeIsValid(id: string, runId: string, artifacts: seq<Artifact>, pdk: string, metrics: seq<bool>)
    ensures GdsOutcome(id, runId, artifacts, pdk, metrics).Valid()
      <==> && IsBoundedId(runId) && IsBoundedId(id) && IsBoundedId(pdk)
           && AllBounded(ListedArtifacts(artifacts))
  {
    hide Missing, IsBoundedId, ListedArtifacts, JoinComma, NonBlank;
    var tail := JoinComma(Missing(artifacts, metrics));
    ReasonIsText(tail);
    var o, ids := GdsOutcome(id, runId, artifacts, pdk, metrics), ListedArtifacts(artifacts);
    assert o == M1RunOutcome(runId, id, pdk, "gds_incomplete", "missing " + tail, ids);
    assert NonBlank(o.reason);
  }

  // ----- whole histories -----

  /** No run has both kinds of verdict. */
  ghost predicate OneVerdict(s: State) {
    forall runId | runId in s.outcomes :: s.outcomes[runId].runId == runId && "evidence:" + runId !in s.evidence
  }

  /** Evidence and outcomes recorded before are there unchanged. */
  predicate VerdictsKept(s: State, t: State) {
    && s.evidence.Keys <= t.evidence.Keys && s.outcomes.Keys <= t.outcomes.Keys
    && (forall k | k in s.evidence :: t.evidence[k] == s.evidence[k])
    && (forall k | k in s.outcomes :: t.outcomes[k] == s.outcomes[k])
  }

  /** A direct recording of evidence under the id that belongs to a run with an incomplete outcome. */
  predicate Contradicts(env: Env, s: State, op: Op) {
    && op.AddEvidence? && RecordEvidence(env, s, op.evidence).1.Return?
    && exists runId | runId in s.outcomes :: op.evidence.evidenceId == "evidence:" + runId
  }

  lemma SameVerdicts(s: State, t: State)
    requires t.evidence == s.evidence && t.outcomes == s.outcomes
    ensures VerdictsKept(s, t) && (OneVerdict(s) <==> OneVerdict(t))
  {
  }

  lemma EvidenceIdsAreInjective()
    ensures forall a: string, b: string :: "evidence:" + a == "evidence:" + b ==> a == b
  {
    forall a: string, b: string | "evidence:" + a == "evidence:" + b ensures a == b {
      assert ("evidence:" + a)[9..] == a && ("evidence:" + b)[9..] == b;
    }
  }

  lemma NewEvidence(s: State, e: EvidenceRef)
    requires e.evidenceId !in s.evidence
    ensures VerdictsKept(s, PutEvidence(s, e))
    ensures OneVerdict(s) ==>
              (OneVerdict(PutEvidence(s, e))
               <==> forall runId | runId in s.outcomes :: e.evidenceId != "evidence:" + runId)
  {
    hide EncodeEvidence;
  }

  lemma NewOutcome(s: State, outcome: M1RunOutcome)
    requires outcome.runId !in s.outcomes
    ensures VerdictsKept(s, PutOutcome(s, outcome))
    ensures OneVerdict(s) && "evidence:" + outcome.runId !in s.evidence ==> OneVerdict(PutOutcome(s, outcome))
  {
    hide EncodeOutcome;
  }

  lemma RecordKeepsVerdicts(env: Env, s: State, id: string, runId: string, artifacts: seq<Artifact>, pdk: string,
                            metrics: seq<bool>, now: string)
    ensures var t := RecordGdsEvidence(env, s, id, runId, artifacts, pdk, metrics, now).0;
            VerdictsKept(s, t) && (OneVerdict(s) ==> OneVerdict(t))
  {
    RecordShape(env, s, id, runId, artifacts, pdk, metrics, now);
    hide RecordGdsEvidence, CompleteRun, OneVerdict, VerdictsKept, PutOutcome, PutEvidence;
    var (t, r) := RecordGdsEvidence(env, s, id, runId, artifacts, pdk, metrics, now);
    SameVerdicts(s, s);
    if VerdictOf(s, runId).None? && r.Return? {
      if r.value.Evidenced? {
        NewEvidence(s, r.value.evidence);
        EvidenceIdsAreInjective();
      } else {
        NewOutcome(s, r.value.outcome);
      }
    }
  }

  lemma AddingEvidence(env: Env, s: State, op: Op)
    requires op.AddEvidence?
    ensures var t := RecordEvidence(env, s, op.evidence).0;
            VerdictsKept(s, t) && (OneVerdict(s) ==> (OneVerdict(t) <==> !Contradicts(env, s, op)))
  {
    RecordedOrRefused(env, s, op.evidence);
    hide RecordEvidence, OneVerdict, VerdictsKept, PutEvidence;
    SameVerdicts(s, s);
    if RecordEvidence(env, s, op.evidence).1.Return? { NewEvidence(s, op.evidence); }
  }

  lemma OtherCallsKeepVerdicts(env: Env, s: State, op: Op)
    requires Keyed(s.versions) && Possible(s, op) && !op.Request? && !op.Judge? && !op.AddEvidence?
    ensures Step(env, s, op).0.evidence == s.evidence && Step(env, s, op).0.outcomes == s.outcomes
  {
    if op.Assess? || op.Freeze? || op.Register? {
      SpecificationsFrame(env, s, op);
    } else if op.Observe? {
      ObserveMoves(s, op.runId, op.status, op.order);
      hide ObserveRun;
    } else {
      VersionCallsFrame(env, s, op);
      hide Step;
    }
  }

  lemma KeptThrough(s: State, t: State, u: State)
    requires VerdictsKept(s, t) && VerdictsKept(t, u)
    ensures VerdictsKept(s, u)
  {
  }

  lemma RequestKeepsVerdicts(env: Env, s: State, op: Op)
    requires Keyed(s.versions) && Possible(s, op) && op.Request?
    ensures VerdictsKept(s, Step(env, s, op).0) && (OneVerdict(s) ==> OneVerdict(Step(env, s, op).0))
  {
    hide ObserveRun, RecordGdsEvidence, AssertRunOwner, TaskVersion, TaskPdk, VerdictsKept, OneVerdict;
    ObserveMoves(s, op.runId, op.run.status, op.order);
    var t := ObserveRun(s, op.runId, op.run.status, op.order).0;
    SameVerdicts(s, s);
    SameVerdicts(s, t);
    RecordKeepsVerdicts(env, t, TaskVersion(op.run.taskId), op.runId, op.run.artifacts, TaskPdk(op.run.taskId),
                        op.run.metrics, op.now);
    KeptThrough(s, t, RecordGdsEvidence(env, t, TaskVersion(op.run.taskId), op.runId, op.run.artifacts,
                                        TaskPdk(op.run.taskId), op.run.metrics, op.now).0);
  }

  /** Main result: no call changes or removes a verdict, and from a state without contradicting verdicts a call leads to
      one with if and only if it is a direct recording of evidence under the id of a run that has an outcome. */
  lemma OneVerdictExactly(env: Env, s: State, op: Op)
    requires Keyed(s.versions) && Possible(s, op)
    ensures VerdictsKept(s, Step(env, s, op).0)
    ensures OneVerdict(s) ==> (OneVerdict(Step(env, s, op).0) <==> !Contradicts(env, s, op))
  {
    hide RecordGdsEvidence, RecordEvidence, VerdictsKept, OneVerdict;
    if op.Judge? {
      RecordKeepsVerdicts(env, s, op.versionId, op.runId, op.artifacts, op.pdk, op.metrics, op.now);
    } else if op.AddEvidence? {
      AddingEvidence(env, s, op);
    } else if op.Request? {
      RequestKeepsVerdicts(env, s, op);
    } else {
      OtherCallsKeepVerdicts(env, s, op);
      SameVerdicts(s, Step(env, s, op).0);
    }
  }

  /** No call of the list contradicts an outcome. */
  predicate NeverContradicts(env: Env, s: State, ops: seq<Op>)
    requires PossibleRun(env, s, ops)
    decreases |ops|
  {
    ops == [] || (!Contradicts(env, s, ops[0]) && NeverContradicts(env, Step(env, s, ops[0]).0, ops[1..]))
  }

  lemma {:induction false} RunKeepsVerdicts(env: Env, s: State, ops: seq<Op>)
    requires Keyed(s.versions) && PossibleRun(env, s, ops)
    ensures VerdictsKept(s, Run(env, s, ops)) && Keyed(Run(env, s, ops).versions)
    ensures OneVerdict(s) && NeverContradicts(env, s, ops) ==> OneVerdict(Run(env, s, ops))
    decreases |ops|
  {
    hide Step, Possible, OneVerdict, VerdictsKept, Contradicts;
    if ops == [] {
      SameVerdicts(s, s);
    } else {
      var t := Step(env, s, ops[0]).0;
      OneVerdictExactly(env, s, ops[0]);
      StepMoves(env, s, ops[0]);
      RunKeepsVerdicts(env, t, ops[1..]);
      KeptThrough(s, t, Run(env, t, ops[1..]));
    }
  }

  /** Main result: in every history without a contradicting direct recording a run has at most one kind of verdict, and
      a verdict once given is never changed by what follows; evidence once filed stays in any history. */
  lemma VerdictsAreFinal(env: Env, before: seq<Op>, after: seq<Op>, runId: string)
    requires PossibleRun(env, EMPTY, before) && PossibleRun(env, Run(env, EMPTY, before), after)
    ensures var s := Run(env, EMPTY, before); var t := Run(env, s, after);
            VerdictOf(s, runId).Some? && VerdictOf(s, runId).value.Evidenced? ==>
              VerdictOf(t, runId) == VerdictOf(s, runId)
    ensures var s := Run(env, EMPTY, before); var t := Run(env, s, after);
            NeverContradicts(env, EMPTY, before) && NeverContradicts(env, s, after) ==>
              && !("evidence:" + runId in t.evidence && runId in t.outcomes)
              && (VerdictOf(s, runId).Some? ==> VerdictOf(t, runId) == VerdictOf(s, runId))
  {
    hide Step, Possible, Run, PossibleRun, NeverContradicts;
    assert OneVerdict(EMPTY) && Keyed(EMPTY.versions);
    RunKeepsVerdicts(env, EMPTY, before);
    RunKeepsVerdicts(env, Run(env, EMPTY, before), after);
  }
}
