/** `observe_run` works through a snapshot of the versions, one record at a time. Here: when it returns, it has done
    one simultaneous update of exactly the running checks of that run, in any iteration order, and repeating it
    changes nothing; when it raises, which versions stopped it and how far it can have got. */
module M1Observe {
  import opened Wrappers
  import opened Contracts
  import opened M1Model

  predicate AwaitsVerification(v: RTLVersion, runId: string) {
    v.verificationRunId == Some(runId) && v.verificationStatus == Running
  }

  predicate AwaitsSimulation(v: RTLVersion, runId: string) {
    v.simulationRunId == Some(runId) && v.simulationStatus == Running
  }

  function WithVerification(v: RTLVersion, runId: string, status: string): RTLVersion {
    if AwaitsVerification(v, runId) then v.(verificationStatus := Result(status)) else v
  }

  /** The version after a complete observation: both running checks of the run take its result, nothing else. */
  function Observed(v: RTLVersion, runId: string, status: string): RTLVersion {
    v.(verificationStatus := if AwaitsVerification(v, runId) then Result(status) else v.verificationStatus,
       simulationStatus := if AwaitsSimulation(v, runId) then Result(status) else v.simulationStatus)
  }

  /** A version that makes the observation raise: a running simulation of the run on a version that does not
      (or no longer) pass verification, or a record that does not validate. */
  predicate Blocks(v: RTLVersion, runId: string, status: string) {
    || (AwaitsVerification(v, runId) && !WithVerification(v, runId, status).Valid())
    || (AwaitsSimulation(v, runId)
        && (WithVerification(v, runId, status).verificationStatus != Passed || !Observed(v, runId, status).Valid()))
  }

  predicate Keyed(versions: map<string, RTLVersion>) {
    forall k | k in versions :: versions[k].versionId == k
  }

  /** Only versions and their rows can differ. */
  predicate OnlyVersionsDiffer(s: State, t: State) {
    t == s.(versions := t.versions, rows := s.rows.(versions := t.rows.versions))
  }

  lemma ObserveVersionIs(s: State, id: string, runId: string, status: string)
    requires id in s.versions && Keyed(s.versions)
    ensures var v := s.versions[id];
            var (t, r) := ObserveVersion(s, id, v, runId, status);
            && OnlyVersionsDiffer(s, t)
            && (r.Return? <==> !Blocks(v, runId, status))
            && (r.Return? ==> t.versions == s.versions[id := Observed(v, runId, status)])
            && (r.Raise? ==>
                  t.versions == s.versions || t.versions == s.versions[id := WithVerification(v, runId, status)])
  {
    hide RTLVersion.Valid, EncodeVersion, Result;
    var v := s.versions[id];
    assert Result(status) == Passed || Result(status) == Failed by { ResultIsTerminal(status); }
    assert v.(verificationStatus := v.verificationStatus) == v;
    var s1 := if AwaitsVerification(v, runId) then RecordVerification(s, id, Result(status), runId).0 else s;
    assert s.versions[id := v] == s.versions;
    if AwaitsVerification(v, runId) {
      assert v.(verificationStatus := Result(status), verificationRunId := Some(runId))
        == WithVerification(v, runId, status);
    }
  }

  lemma ResultIsTerminal(status: string)
    ensures Result(status) == Passed || Result(status) == Failed
    ensures Result(status) == Passed <==> status == "succeeded"
  {
  }

  /** Every version is as before, or has its verification recorded, or is completely observed. */
  predicate PartlyObserved(before: map<string, RTLVersion>, after: map<string, RTLVersion>, runId: string,
                           status: string)
  {
    && after.Keys == before.Keys
    && forall k | k in before ::
         || after[k] == before[k]
         || after[k] == WithVerification(before[k], runId, status)
         || after[k] == Observed(before[k], runId, status)
  }

  lemma {:induction false} ObserveAllIs(s: State, snapshot: map<string, RTLVersion>, order: seq<string>,
                                        runId: string, status: string)
    requires Keyed(s.versions) && s.versions.Keys == snapshot.Keys
    requires forall i | 0 <= i < |order| :: order[i] in snapshot && s.versions[order[i]] == snapshot[order[i]]
    requires forall i, j | 0 <= i < j < |order| :: order[i] != order[j]
    ensures var (t, r) := ObserveAll(s, snapshot, order, runId, status);
            && OnlyVersionsDiffer(s, t)
            && PartlyObserved(s.versions, t.versions, runId, status)
            && (r.Return? <==> forall i | 0 <= i < |order| :: !Blocks(snapshot[order[i]], runId, status))
            && (r.Return? ==> forall k | k in s.versions ::
                  t.versions[k] == if k in order then Observed(s.versions[k], runId, status) else s.versions[k])
            && (forall k | k in s.versions && k !in order :: t.versions[k] == s.versions[k])
    decreases |order|
  {
    hide Blocks, Observed, WithVerification, ObserveVersion;
    if order != [] {
      var id := order[0];
      var (s1, r1) := ObserveVersion(s, id, snapshot[id], runId, status);
      ObserveVersionIs(s, id, runId, status);
      ObservedKeepsId(snapshot[id], runId, status);
      if r1.Return? {
        forall i | 0 <= i < |order[1..]|
          ensures order[1..][i] in snapshot && s1.versions[order[1..][i]] == snapshot[order[1..][i]]
        {
          assert order[1..][i] == order[i + 1];
        }
        ObserveAllIs(s1, snapshot, order[1..], runId, status);
        assert forall k :: k in order <==> k == id || k in order[1..];
        assert id !in order[1..];
        assert forall i | 1 <= i < |order| :: order[i] == order[1..][i - 1];
      }
    }
  }

  lemma ObservedKeepsId(v: RTLVersion, runId: string, status: string)
    ensures Observed(v, runId, status).versionId == v.versionId
    ensures WithVerification(v, runId, status).versionId == v.versionId
  {
  }

  /** Main result: when an observation returns, and that what it did is the simultaneous update. */
  lemma ObserveRunIsPointwise(s: State, runId: string, status: string, order: seq<string>)
    requires Keyed(s.versions) && Enumerates(order, s.versions) && status in TERMINAL
    ensures var (t, r) := ObserveRun(s, runId, status, order);
            && OnlyVersionsDiffer(Log(s, Observation(runId, status)), t)
            && PartlyObserved(s.versions, t.versions, runId, status)
            && (r.Return? <==> forall k | k in s.versions :: !Blocks(s.versions[k], runId, status))
            && (r.Return? ==> t.versions == map k | k in s.versions :: Observed(s.versions[k], runId, status))
  {
    hide Blocks, Observed, WithVerification, ObserveAll;
    ObserveAllIs(Log(s, Observation(runId, status)), s.versions, order, runId, status);
    assert forall k | k in s.versions :: exists i :: 0 <= i < |order| && order[i] == k;
  }

  /** Main result: observing the run again right after an observation of it returned, with any status and in any order,
      returns and leaves every version as it is. */
  lemma FirstStatusSticks(s: State, runId: string, status: string, order: seq<string>, again: string,
                          order2: seq<string>)
    requires Keyed(s.versions) && Enumerates(order, s.versions) && status in TERMINAL && again in TERMINAL
    requires ObserveRun(s, runId, status, order).1.Return?
    requires Enumerates(order2, ObserveRun(s, runId, status, order).0.versions)
    ensures var t := ObserveRun(s, runId, status, order).0;
            var (u, r) := ObserveRun(t, runId, again, order2);
            r.Return? && u.versions == t.versions
  {
    hide ObserveRun, Enumerates, RTLVersion.Valid;
    ObserveRunIsPointwise(s, runId, status, order);
    var t := ObserveRun(s, runId, status, order).0;
    forall k | k in t.versions
      ensures !Blocks(t.versions[k], runId, again) && Observed(t.versions[k], runId, again) == t.versions[k]
      ensures t.versions[k].versionId == k
    {
      ResultIsTerminal(status);
    }
    ObserveRunIsPointwise(t, runId, again, order2);
  }

  /** On valid records only a running simulation without a passed verification stops an observation. */
  lemma WhatBlocks(v: RTLVersion, runId: string, status: string)
    requires v.Valid()
    ensures Blocks(v, runId, status)
      <==> AwaitsSimulation(v, runId)
           && !(v.verificationStatus == Passed || (AwaitsVerification(v, runId) && status == "succeeded"))
  {
    ResultIsTerminal(status);
  }
}
