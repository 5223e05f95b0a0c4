/**
 * The phase list: an ordered list of `(job, phase)` pairs that is read as a
 * dictionary (`get_job_phase`, last pair wins) and written in place
 * (`set_job_phase`, first pair rewritten or a new pair appended)
 * (examples/jobtree/sync.py:16-29).
 */
module PhaseStore {
  import opened Wrappers

  /** Phase names the reconciler gives a meaning to; any other string is carried along as is. */
  const SUCCEEDED: string := "Succeeded"
  const RUNNING: string := "Running"
  const DISAPPEARED: string := "Disappeared"

  /** One record of the list: the job name and its last known phase. */
  type Entry = (string, string)

  /** Some pair of the list is named `job`. */
  predicate HasJob(phases: seq<Entry>, job: string) {
    exists i :: 0 <= i < |phases| && phases[i].0 == job
  }

  /** No job name occurs twice; under it reads and writes hit the same pair. */
  predicate UniqueJobs(phases: seq<Entry>) {
    forall i, j :: 0 <= i < j < |phases| ==> phases[i].0 != phases[j].0
  }

  /** The names of `phases` and of `other`, pair by pair, are the same. */
  predicate SameJobs(phases: seq<Entry>, other: seq<Entry>) {
    |phases| == |other| && forall i :: 0 <= i < |phases| ==> phases[i].0 == other[i].0
  }

  /**
   * `get_job_phase`: the phase of the LAST pair named `job` (a dictionary
   * built from the list keeps the last value per key), or `None`.
   */
  function GetJobPhase(job: string, phases: seq<Entry>): (r: Option<string>)
    ensures r.None? <==> !HasJob(phases, job)
    ensures r.Some? ==> exists i :: 0 <= i < |phases| && phases[i] == (job, r.value) &&
                                   forall k :: i < k < |phases| ==> phases[k].0 != job
    decreases |phases|
  {
    if |phases| == 0 then None
    else
      var last := phases[|phases| - 1];
      if last.0 == job then Some(last.1)
      else
        var r := GetJobPhase(job, phases[..|phases| - 1]);
        assert forall i :: 0 <= i < |phases| - 1 ==> phases[..|phases| - 1][i] == phases[i];
        r
  }

  /** The position of the first pair named `job`. */
  function FirstIndex(phases: seq<Entry>, job: string): (i: nat)
    requires HasJob(phases, job)
    ensures i < |phases| && phases[i].0 == job
    ensures forall k :: 0 <= k < i ==> phases[k].0 != job
    decreases |phases|
  {
    if phases[0].0 == job then 0
    else
      assert HasJob(phases[1..], job) by {
        var k :| 0 <= k < |phases| && phases[k].0 == job;
        assert phases[1..][k - 1] == phases[k];
      }
      1 + FirstIndex(phases[1..], job)
  }

  /**
   * The list after `set_job_phase(job, phases, phase)`: the first pair named
   * `job` becomes `(job, phase)`; with no such pair, `(job, phase)` is appended.
   */
  function Assigned(phases: seq<Entry>, job: string, phase: string): (r: seq<Entry>)
    ensures HasJob(phases, job) ==> r == phases[FirstIndex(phases, job) := (job, phase)]
    ensures !HasJob(phases, job) ==> r == phases + [(job, phase)]
    decreases |phases|
  {
    if |phases| == 0 then [(job, phase)]
    else if phases[0].0 == job then [(job, phase)] + phases[1..]
    else
      var tail := Assigned(phases[1..], job, phase);
      assert HasJob(phases, job) ==> HasJob(phases[1..], job) by {
        if HasJob(phases, job) {
          var k :| 0 <= k < |phases| && phases[k].0 == job;
          assert phases[1..][k - 1] == phases[k];
        }
      }
      [phases[0]] + tail
  }

  /**
   * `set_job_phase`: the `for ... else` search for the first pair named
   * `job`, then the write or the append.
   */
  method SetJobPhase(job: string, phases: seq<Entry>, phase: string) returns (r: seq<Entry>)
    ensures r == Assigned(phases, job, phase)
  {
    var index := 0;
    while index < |phases| && phases[index].0 != job
      invariant 0 <= index <= |phases|
      invariant forall k :: 0 <= k < index ==> phases[k].0 != job
    {
      index := index + 1;
    }
    if index < |phases| {
      r := phases[index := (job, phase)];
    } else {
      r := phases + [(job, phase)];
    }
  }

  /** Writing one job keeps every pair's name, and only adds `job` at the end if it was missing. */
  lemma AssignedJobs(phases: seq<Entry>, job: string, phase: string)
    ensures |Assigned(phases, job, phase)| == if HasJob(phases, job) then |phases| else |phases| + 1
    ensures forall i :: 0 <= i < |phases| ==> Assigned(phases, job, phase)[i].0 == phases[i].0
  {
  }

  /** In a list without duplicates, the phase of any pair is what `get_job_phase` reads. */
  lemma GetUnique(phases: seq<Entry>, i: int)
    requires UniqueJobs(phases)
    requires 0 <= i < |phases|
    ensures GetJobPhase(phases[i].0, phases) == Some(phases[i].1)
  {
  }

  /** In a list without duplicates, a job's pair is the first pair with its name. */
  lemma AssignedUnique(phases: seq<Entry>, i: int, phase: string)
    requires UniqueJobs(phases)
    requires 0 <= i < |phases|
    ensures Assigned(phases, phases[i].0, phase) == phases[i := (phases[i].0, phase)]
  {
  }

  /** With names unique, reading right after writing gives the phase just written. */
  lemma GetAfterSet(phases: seq<Entry>, job: string, phase: string)
    requires UniqueJobs(phases)
    ensures GetJobPhase(job, Assigned(phases, job, phase)) == Some(phase)
  {
    var r := Assigned(phases, job, phase);
    if HasJob(phases, job) {
      var i :| 0 <= i < |phases| && phases[i].0 == job;
      AssignedUnique(phases, i, phase);
      GetUnique(r, i);
    } else {
      assert r[|r| - 1] == (job, phase);
    }
  }

  /** Writing one job never changes what is read for another. */
  lemma GetOtherAfterSet(phases: seq<Entry>, job: string, phase: string, other: string)
    requires other != job
    ensures GetJobPhase(other, Assigned(phases, job, phase)) == GetJobPhase(other, phases)
  {
    var r := Assigned(phases, job, phase);
    AssignedJobs(phases, job, phase);
    if HasJob(phases, job) {
      SameOtherPhases(phases, r, FirstIndex(phases, job), other);
    } else {
      assert r[..|r| - 1] == phases;
    }
  }

  /** Rewriting a pair of another name leaves the reading of `other` alone. */
  lemma SameOtherPhases(phases: seq<Entry>, r: seq<Entry>, i: int, other: string)
    requires 0 <= i < |phases| && |r| == |phases|
    requires r[i].0 != other && phases[i].0 != other
    requires forall k :: 0 <= k < |phases| && k != i ==> r[k] == phases[k]
    ensures GetJobPhase(other, r) == GetJobPhase(other, phases)
  {
    var a, b := GetJobPhase(other, phases), GetJobPhase(other, r);
    if a.Some? {
      var k :| 0 <= k < |phases| && phases[k] == (other, a.value) &&
               forall m :: k < m < |phases| ==> phases[m].0 != other;
      assert r[k] == phases[k];
      assert HasJob(r, other);
      var k' :| 0 <= k' < |r| && r[k'] == (other, b.value) &&
                forall m :: k' < m < |r| ==> r[m].0 != other;
      assert k == k';
    }
  }

  /** Rewriting a pair that a later pair of the same name shadows leaves the reading of that name alone. */
  lemma ShadowedWrite(phases: seq<Entry>, job: string, f: int, j: int, phase: string)
    requires 0 <= f < j < |phases| && phases[j].0 == job
    ensures GetJobPhase(job, phases[f := (job, phase)]) == GetJobPhase(job, phases)
  {
    var r := phases[f := (job, phase)];
    assert r[j] == phases[j];
    assert HasJob(phases, job) && HasJob(r, job);
    var a, b := GetJobPhase(job, phases), GetJobPhase(job, r);
    var i :| 0 <= i < |phases| && phases[i] == (job, a.value) &&
             forall m :: i < m < |phases| ==> phases[m].0 != job;
    var i' :| 0 <= i' < |r| && r[i'] == (job, b.value) &&
              forall m :: i' < m < |r| ==> r[m].0 != job;
    assert j <= i;
    assert r[i].0 == job;
    assert i' == i;
  }

  /** Writing a phase never introduces a duplicate name. */
  lemma AssignedKeepsUnique(phases: seq<Entry>, job: string, phase: string)
    requires UniqueJobs(phases)
    ensures UniqueJobs(Assigned(phases, job, phase))
  {
    if HasJob(phases, job) {
      var i :| 0 <= i < |phases| && phases[i].0 == job;
      AssignedUnique(phases, i, phase);
    }
  }

  /**
   * Why uniqueness matters: with a name recorded twice, `set_job_phase`
   * rewrites the first pair while `get_job_phase` still reads the second.
   */
  lemma DuplicateHidesWrite()
    ensures GetJobPhase("A", Assigned([("A", RUNNING), ("A", "Failed")], "A", SUCCEEDED)) == Some("Failed")
  {
    var phases := [("A", RUNNING), ("A", "Failed")];
    assert phases[0].0 == "A";
    assert FirstIndex(phases, "A") == 0;
    assert Assigned(phases, "A", SUCCEEDED) == [("A", SUCCEEDED), ("A", "Failed")];
  }
}
