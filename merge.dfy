/**
 * The merge of observed pod phases into the phases recorded by the previous
 * cycle (examples/jobtree/sync.py:186-196): every child pod updates its job's
 * pair unless that job is already `Succeeded`; jobs seen for the first time
 * are appended in pod order.
 */
module Merge {
  import opened Wrappers
  import opened PhaseStore
  import opened ChildNaming

  /** One observed pod: its name and its `status.phase`, in the order the pod dictionary lists them. */
  type PodPhase = (string, string)

  /** Pod names are the keys of the observed pod dictionary, so they are distinct. */
  predicate DistinctPods(pods: seq<PodPhase>) {
    forall i, j :: 0 <= i < j < |pods| ==> pods[i].0 != pods[j].0
  }

  /** `current_jobs`: the observed phase of every child job, as the loop fills the dictionary. */
  function Observed(prefix: string, pods: seq<PodPhase>): map<string, string>
    decreases |pods|
  {
    if |pods| == 0 then map[]
    else
      var (podName, phase) := pods[|pods| - 1];
      var before := Observed(prefix, pods[..|pods| - 1]);
      if IsMyChild(prefix, podName) then before[ExtractName(prefix, podName) := phase] else before
  }

  /** What one pod does to the phase list: sticky success, otherwise the observed phase is written. */
  function MergeStep(phases: seq<Entry>, prefix: string, pod: PodPhase): seq<Entry> {
    var (podName, phase) := pod;
    if IsMyChild(prefix, podName) then
      var job := ExtractName(prefix, podName);
      if GetJobPhase(job, phases) != Some(SUCCEEDED) then Assigned(phases, job, phase) else phases
    else phases
  }

  /** The phase list after the pod loop has processed `pods` in order. */
  function Merged(previous: seq<Entry>, prefix: string, pods: seq<PodPhase>): seq<Entry>
    decreases |pods|
  {
    if |pods| == 0 then previous
    else MergeStep(Merged(previous, prefix, pods[..|pods| - 1]), prefix, pods[|pods| - 1])
  }

  /** The pod loop: copies the previous phases, then merges every child pod and records it as current. */
  method MergeObserved(previous: seq<Entry>, prefix: string, pods: seq<PodPhase>)
    returns (phases: seq<Entry>, current: map<string, string>)
    ensures phases == Merged(previous, prefix, pods)
    ensures current == Observed(prefix, pods)
  {
    phases := previous;
    current := map[];
    var k := 0;
    while k < |pods|
      invariant 0 <= k <= |pods|
      invariant phases == Merged(previous, prefix, pods[..k])
      invariant current == Observed(prefix, pods[..k])
    {
      var (podName, phase) := pods[k];
      if IsMyChild(prefix, podName) {
        var job := ExtractName(prefix, podName);
        current := current[job := phase];
        if GetJobPhase(job, phases) != Some(SUCCEEDED) {
          phases := SetJobPhase(job, phases, phase);
        }
      }
      assert pods[..k + 1][..k] == pods[..k];
      k := k + 1;
    }
    assert pods[..|pods|] == pods;
  }

  // ---------------------------------------------------------------------------
  // Reference: the merged list in one piece
  // ---------------------------------------------------------------------------

  /** A previously recorded pair after the merge: overwritten by an observation unless `Succeeded`. */
  function OverlayEntry(entry: Entry, observed: map<string, string>): Entry {
    if entry.1 != SUCCEEDED && entry.0 in observed then (entry.0, observed[entry.0]) else entry
  }

  /** Every previously recorded pair, in place, after the merge. */
  function Overlay(previous: seq<Entry>, observed: map<string, string>): (r: seq<Entry>)
    ensures SameJobs(previous, r)
  {
    seq(|previous|, i requires 0 <= i < |previous| => OverlayEntry(previous[i], observed))
  }

  /** The child jobs with no previous record, with their observed phase, in pod order. */
  function NewEntries(previous: seq<Entry>, prefix: string, pods: seq<PodPhase>): seq<Entry>
    decreases |pods|
  {
    if |pods| == 0 then []
    else
      var (podName, phase) := pods[|pods| - 1];
      var before := NewEntries(previous, prefix, pods[..|pods| - 1]);
      var job := ExtractName(prefix, podName);
      if IsMyChild(prefix, podName) && !HasJob(previous, job) then before + [(job, phase)] else before
  }

  /** Every observed job comes from a child pod named after it. */
  lemma {:induction false} ObservedFromPod(prefix: string, pods: seq<PodPhase>, job: string)
    requires job in Observed(prefix, pods)
    ensures exists i :: 0 <= i < |pods| && pods[i].0 == PodName(prefix, job)
    decreases |pods|
  {
    var n := |pods| - 1;
    var (podName, phase) := pods[n];
    if IsMyChild(prefix, podName) && ExtractName(prefix, podName) == job {
      ChildNameRebuilds(prefix, podName);
    } else {
      ObservedFromPod(prefix, pods[..n], job);
      var i :| 0 <= i < n && pods[..n][i].0 == PodName(prefix, job);
      assert pods[i] == pods[..n][i];
    }
  }

  /** With distinct pod names, the last pod's job has not been observed before it. */
  lemma LastPodIsNew(prefix: string, pods: seq<PodPhase>)
    requires DistinctPods(pods) && |pods| > 0
    requires IsMyChild(prefix, pods[|pods| - 1].0)
    ensures ExtractName(prefix, pods[|pods| - 1].0) !in Observed(prefix, pods[..|pods| - 1])
  {
    var n := |pods| - 1;
    var job := ExtractName(prefix, pods[n].0);
    if job in Observed(prefix, pods[..n]) {
      ObservedFromPod(prefix, pods[..n], job);
      var i :| 0 <= i < n && pods[..n][i].0 == PodName(prefix, job);
      ChildNameRebuilds(prefix, pods[n].0);
    }
  }

  /** A prefix of a list of distinct pods is distinct. */
  lemma DistinctInit(pods: seq<PodPhase>)
    requires DistinctPods(pods) && |pods| > 0
    ensures DistinctPods(pods[..|pods| - 1])
  {
  }

  /**
   * The appended jobs are exactly the observed jobs with no previous record,
   * each once, with its observed phase.
   */
  lemma {:induction false} NewEntriesAreObserved(previous: seq<Entry>, prefix: string, pods: seq<PodPhase>)
    requires DistinctPods(pods)
    ensures var added, observed := NewEntries(previous, prefix, pods), Observed(prefix, pods);
            UniqueJobs(added) &&
            (forall k :: 0 <= k < |added| ==>
               added[k].0 in observed && !HasJob(previous, added[k].0) && added[k].1 == observed[added[k].0]) &&
            (forall job :: job in observed && !HasJob(previous, job) ==> HasJob(added, job))
    decreases |pods|
  {
    if |pods| > 0 {
      var n := |pods| - 1;
      DistinctInit(pods);
      NewEntriesAreObserved(previous, prefix, pods[..n]);
      var (podName, phase) := pods[n];
      if IsMyChild(prefix, podName) {
        LastPodIsNew(prefix, pods);
        var before := NewEntries(previous, prefix, pods[..n]);
        var added := NewEntries(previous, prefix, pods);
        var job := ExtractName(prefix, podName);
        if !HasJob(previous, job) {
          assert added == before + [(job, phase)];
          assert added[|before|] == (job, phase);
          assert forall k :: 0 <= k < |before| ==> added[k] == before[k];
        }
      }
    }
  }

  /** Two lists without duplicates and without a shared name concatenate to one without duplicates. */
  lemma UniqueConcat(first: seq<Entry>, second: seq<Entry>)
    requires UniqueJobs(first) && UniqueJobs(second)
    requires forall k :: 0 <= k < |second| ==> !HasJob(first, second[k].0)
    ensures UniqueJobs(first + second)
  {
    var both := first + second;
    forall i, j | 0 <= i < j < |both| ensures both[i].0 != both[j].0 {
      if j >= |first| && i < |first| {
        assert both[j] == second[j - |first|];
        assert both[i] == first[i];
      } else if i >= |first| {
        assert both[j] == second[j - |first|] && both[i] == second[i - |first|];
      }
    }
  }

  /** Overlaying observations renames nothing, so `Overlay` keeps names unique. */
  lemma OverlayKeepsJobs(previous: seq<Entry>, observed: map<string, string>, job: string)
    ensures HasJob(Overlay(previous, observed), job) <==> HasJob(previous, job)
    ensures UniqueJobs(previous) ==> UniqueJobs(Overlay(previous, observed))
  {
    var r := Overlay(previous, observed);
    if HasJob(r, job) {
      var i :| 0 <= i < |r| && r[i].0 == job;
      assert previous[i].0 == job;
    }
    if HasJob(previous, job) {
      var i :| 0 <= i < |previous| && previous[i].0 == job;
      assert r[i].0 == job;
    }
  }

  /** Observing a recorded, not yet `Succeeded` job rewrites only its own pair of the overlay. */
  lemma OverlayObserveOne(previous: seq<Entry>, observed: map<string, string>, i: nat, phase: string)
    requires UniqueJobs(previous) && i < |previous| && previous[i].1 != SUCCEEDED
    requires previous[i].0 !in observed
    ensures Overlay(previous, observed[previous[i].0 := phase]) ==
            Overlay(previous, observed)[i := (previous[i].0, phase)]
  {
    var job := previous[i].0;
    var after := Overlay(previous, observed[job := phase]);
    var before := Overlay(previous, observed);
    forall j | 0 <= j < |previous| ensures after[j] == before[i := (job, phase)][j] {
      if j != i {
        assert previous[j].0 != job;
      }
    }
  }

  /** Updating a position of the first part of a concatenation updates that part. */
  lemma UpdateFront(front: seq<Entry>, back: seq<Entry>, i: nat, entry: Entry)
    requires i < |front|
    ensures (front + back)[i := entry] == front[i := entry] + back
  {
  }

  /** One pod step for a job with a previous record: that pair is overwritten in place unless `Succeeded`. */
  lemma StepOnRecordedJob(previous: seq<Entry>, observed: map<string, string>, added: seq<Entry>,
                          job: string, phase: string)
    requires UniqueJobs(previous) && HasJob(previous, job) && job !in observed
    requires UniqueJobs(Overlay(previous, observed) + added)
    ensures var m := Overlay(previous, observed) + added;
            (if GetJobPhase(job, m) != Some(SUCCEEDED) then Assigned(m, job, phase) else m) ==
            Overlay(previous, observed[job := phase]) + added
  {
    var front := Overlay(previous, observed);
    var m := front + added;
    var i := FirstIndex(previous, job);
    assert m[i] == previous[i];
    GetUnique(m, i);
    if previous[i].1 == SUCCEEDED {
      assert Overlay(previous, observed[job := phase]) == front;
    } else {
      AssignedUnique(m, i, phase);
      OverlayObserveOne(previous, observed, i, phase);
      UpdateFront(front, added, i, (job, phase));
    }
  }

  /** One pod step for a job seen for the first time: its pair is appended. */
  lemma StepOnNewJob(previous: seq<Entry>, observed: map<string, string>, added: seq<Entry>,
                     job: string, phase: string)
    requires !HasJob(previous, job) && !HasJob(added, job)
    ensures var m := Overlay(previous, observed) + added;
            (if GetJobPhase(job, m) != Some(SUCCEEDED) then Assigned(m, job, phase) else m) ==
            Overlay(previous, observed[job := phase]) + (added + [(job, phase)])
  {
    var front := Overlay(previous, observed);
    var m := front + added;
    OverlayKeepsJobs(previous, observed, job);
    assert !HasJob(m, job) by {
      forall k | 0 <= k < |m| ensures m[k].0 != job {
        if k < |front| {
          assert m[k] == front[k];
        } else {
          assert m[k] == added[k - |front|];
        }
      }
    }
    assert Overlay(previous, observed[job := phase]) == front by {
      forall k | 0 <= k < |previous|
        ensures OverlayEntry(previous[k], observed[job := phase]) == OverlayEntry(previous[k], observed)
      {
        assert previous[k].0 != job;
      }
    }
    assert m + [(job, phase)] == front + (added + [(job, phase)]);
  }

  /** The shape of the merged list carries over from all pods but the last to all pods. */
  lemma MergedShapeStep(previous: seq<Entry>, prefix: string, pods: seq<PodPhase>)
    requires UniqueJobs(previous) && DistinctPods(pods) && |pods| > 0
    requires var init := pods[..|pods| - 1];
             Merged(previous, prefix, init) == Overlay(previous, Observed(prefix, init)) + NewEntries(previous, prefix, init)
    ensures Merged(previous, prefix, pods) ==
            Overlay(previous, Observed(prefix, pods)) + NewEntries(previous, prefix, pods)
  {
    var n := |pods| - 1;
    var (podName, phase) := pods[n];
    if IsMyChild(prefix, podName) {
      var job := ExtractName(prefix, podName);
      var obsBefore := Observed(prefix, pods[..n]);
      var addedBefore := NewEntries(previous, prefix, pods[..n]);
      DistinctInit(pods);
      LastPodIsNew(prefix, pods);
      NewEntriesAreObserved(previous, prefix, pods[..n]);
      if HasJob(previous, job) {
        OverlayKeepsJobs(previous, obsBefore, job);
        UniqueConcat(Overlay(previous, obsBefore), addedBefore);
        StepOnRecordedJob(previous, obsBefore, addedBefore, job, phase);
      } else {
        StepOnNewJob(previous, obsBefore, addedBefore, job, phase);
      }
    }
  }

  /**
   * With unique previous names and distinct pods, the merged list is every
   * previous pair in place, overwritten by its observation unless `Succeeded`,
   * followed by the newly seen jobs in pod order; names stay unique.
   */
  lemma {:induction false} MergedShape(previous: seq<Entry>, prefix: string, pods: seq<PodPhase>)
    requires UniqueJobs(previous) && DistinctPods(pods)
    ensures Merged(previous, prefix, pods) ==
            Overlay(previous, Observed(prefix, pods)) + NewEntries(previous, prefix, pods)
    ensures UniqueJobs(Merged(previous, prefix, pods))
    decreases |pods|
  {
    var observed := Observed(prefix, pods);
    if |pods| == 0 {
      assert Overlay(previous, observed) == previous;
    } else {
      DistinctInit(pods);
      MergedShape(previous, prefix, pods[..|pods| - 1]);
      MergedShapeStep(previous, prefix, pods);
    }
    NewEntriesAreObserved(previous, prefix, pods);
    OverlayKeepsJobs(previous, observed, "");
    UniqueConcat(Overlay(previous, observed), NewEntries(previous, prefix, pods));
  }

  // ---------------------------------------------------------------------------
  // What the merge promises
  // ---------------------------------------------------------------------------

  /** Sticky success: a job recorded `Succeeded` before the pod loop is still `Succeeded` after it. */
  lemma {:induction false} MergeKeepsSucceeded(previous: seq<Entry>, prefix: string, pods: seq<PodPhase>, job: string)
    requires GetJobPhase(job, previous) == Some(SUCCEEDED)
    ensures GetJobPhase(job, Merged(previous, prefix, pods)) == Some(SUCCEEDED)
    decreases |pods|
  {
    if |pods| > 0 {
      var n := |pods| - 1;
      MergeKeepsSucceeded(previous, prefix, pods[..n], job);
      var m := Merged(previous, prefix, pods[..n]);
      var (podName, phase) := pods[n];
      var other := ExtractName(prefix, podName);
      if IsMyChild(prefix, podName) && other != job && GetJobPhase(other, m) != Some(SUCCEEDED) {
        GetOtherAfterSet(m, other, phase, job);
      }
    }
  }

  /** The phase the merge gives a job, from its previous phase and its observation. */
  function MergedPhase(previous: Option<string>, observed: Option<string>): Option<string> {
    if previous == Some(SUCCEEDED) then previous
    else if observed.Some? then observed
    else previous
  }

  /** The observation of `job` in `current_jobs`, if any. */
  function ObservedPhase(observed: map<string, string>, job: string): Option<string> {
    if job in observed then Some(observed[job]) else None
  }

  /**
   * Per job, the merge keeps `Succeeded`, otherwise takes the observed phase,
   * and otherwise keeps what was recorded (or nothing).
   */
  lemma MergedPhaseOf(previous: seq<Entry>, prefix: string, pods: seq<PodPhase>, job: string)
    requires UniqueJobs(previous) && DistinctPods(pods)
    ensures GetJobPhase(job, Merged(previous, prefix, pods)) ==
            MergedPhase(GetJobPhase(job, previous), ObservedPhase(Observed(prefix, pods), job))
  {
    var observed := Observed(prefix, pods);
    var overlay := Overlay(previous, observed);
    var added := NewEntries(previous, prefix, pods);
    var merged := Merged(previous, prefix, pods);
    MergedShape(previous, prefix, pods);
    NewEntriesAreObserved(previous, prefix, pods);
    OverlayKeepsJobs(previous, observed, job);
    if HasJob(previous, job) {
      var i := FirstIndex(previous, job);
      GetUnique(previous, i);
      assert merged[i] == overlay[i];
      GetUnique(merged, i);
    } else if job in observed {
      var k :| 0 <= k < |added| && added[k].0 == job;
      assert merged[|previous| + k] == added[k];
      GetUnique(merged, |previous| + k);
    } else {
      assert !HasJob(merged, job);
    }
  }

  /**
   * Positions: previously recorded pairs stay where they were (unobserved ones
   * unchanged), and the newly seen jobs follow them in pod order.
   */
  lemma MergeKeepsPositions(previous: seq<Entry>, prefix: string, pods: seq<PodPhase>)
    requires UniqueJobs(previous) && DistinctPods(pods)
    ensures var merged := Merged(previous, prefix, pods);
            |merged| >= |previous| && SameJobs(previous, merged[..|previous|]) &&
            (forall i :: 0 <= i < |previous| && previous[i].0 !in Observed(prefix, pods) ==> merged[i] == previous[i]) &&
            merged[|previous|..] == NewEntries(previous, prefix, pods)
  {
    MergedShape(previous, prefix, pods);
    var merged := Merged(previous, prefix, pods);
    assert merged[..|previous|] == Overlay(previous, Observed(prefix, pods));
  }
}
