/**
 * The disappearance pass (examples/jobtree/sync.py:197-201): every job whose
 * pair says `Running` but that no child pod reports this cycle is recorded
 * as `Disappeared`, which later counts as success.
 */
module Disappearance {
  import opened Wrappers
  import opened PhaseStore

  /**
   * One iteration of the loop at position `i`: the pair there is read from the
   * list being rewritten, and an unobserved `Running` job is set to
   * `Disappeared` through `set_job_phase`, i.e. on the first pair of that name.
   */
  function Visit(r: seq<Entry>, current: map<string, string>, i: nat): (after: seq<Entry>)
    ensures |after| == |r|
  {
    if i < |r| && r[i].1 == RUNNING && r[i].0 !in current then
      Assigned(r, r[i].0, DISAPPEARED)
    else r
  }

  /** The list after the loop has visited positions `0 .. k-1`. */
  function DisappearedUpTo(phases: seq<Entry>, current: map<string, string>, k: nat): (r: seq<Entry>)
    requires k <= |phases|
    ensures |r| == |phases|
    decreases k
  {
    if k == 0 then phases
    else Visit(DisappearedUpTo(phases, current, k - 1), current, k - 1)
  }

  /** A visit keeps the names, order and length of the list. */
  lemma VisitJobs(r: seq<Entry>, current: map<string, string>, i: nat)
    ensures SameJobs(r, Visit(r, current, i))
  {
    if i < |r| && r[i].1 == RUNNING && r[i].0 !in current {
      assert HasJob(r, r[i].0);
      AssignedJobs(r, r[i].0, DISAPPEARED);
    }
  }

  /** The loop keeps the names, order and length of the list at every step. */
  lemma {:induction false} DisappearedUpToJobs(phases: seq<Entry>, current: map<string, string>, k: nat)
    requires k <= |phases|
    ensures SameJobs(phases, DisappearedUpTo(phases, current, k))
    decreases k
  {
    if k > 0 {
      DisappearedUpToJobs(phases, current, k - 1);
      var r := DisappearedUpTo(phases, current, k - 1);
      VisitJobs(r, current, k - 1);
    }
  }

  /** The list after the whole pass. */
  function Disappeared(phases: seq<Entry>, current: map<string, string>): (r: seq<Entry>)
    ensures |r| == |phases|
  {
    DisappearedUpTo(phases, current, |phases|)
  }

  /** The pass as the loop writes it, rewriting the list while it walks it. */
  method MarkDisappeared(phases: seq<Entry>, current: map<string, string>) returns (r: seq<Entry>)
    ensures r == Disappeared(phases, current)
  {
    r := phases;
    var i := 0;
    while i < |r|
      invariant 0 <= i <= |phases| == |r|
      invariant r == DisappearedUpTo(phases, current, i)
    {
      ghost var before := r;
      DisappearedUpToJobs(phases, current, i + 1);
      var entry := r[i];
      if entry.1 == RUNNING && entry.0 !in current {
        r := SetJobPhase(entry.0, r, DISAPPEARED);
      }
      assert r == Visit(before, current, i);
      i := i + 1;
    }
  }

  /** A single pair after the pass: unobserved `Running` becomes `Disappeared`. */
  function MarkEntry(entry: Entry, current: map<string, string>): Entry {
    if entry.1 == RUNNING && entry.0 !in current then (entry.0, DISAPPEARED) else entry
  }

  /** Lists with the same names pair by pair are both free of duplicates or both not. */
  lemma SameJobsUnique(phases: seq<Entry>, other: seq<Entry>)
    requires SameJobs(phases, other) && UniqueJobs(phases)
    ensures UniqueJobs(other)
  {
    forall i, j | 0 <= i < j < |other| ensures other[i].0 != other[j].0 {
      assert phases[i].0 != phases[j].0;
    }
  }

  /** In a list without duplicates, one visit rewrites only the visited position. */
  lemma VisitRewritesInPlace(r: seq<Entry>, current: map<string, string>, i: int)
    requires UniqueJobs(r) && 0 <= i < |r|
    ensures Visit(r, current, i) == r[i := MarkEntry(r[i], current)]
  {
    if r[i].1 == RUNNING && r[i].0 !in current {
      AssignedUnique(r, i, DISAPPEARED);
    } else {
      assert r[i := r[i]] == r;
    }
  }

  /** After visiting `k` positions of a list without duplicates, exactly those positions are marked. */
  lemma {:induction false} DisappearedUpToMarks(phases: seq<Entry>, current: map<string, string>, k: nat)
    requires UniqueJobs(phases) && k <= |phases|
    ensures forall i :: 0 <= i < k ==> DisappearedUpTo(phases, current, k)[i] == MarkEntry(phases[i], current)
    ensures forall i :: k <= i < |phases| ==> DisappearedUpTo(phases, current, k)[i] == phases[i]
    decreases k
  {
    if k > 0 {
      DisappearedUpToMarks(phases, current, k - 1);
      var r := DisappearedUpTo(phases, current, k - 1);
      DisappearedUpToJobs(phases, current, k - 1);
      SameJobsUnique(phases, r);
      VisitRewritesInPlace(r, current, k - 1);
      assert DisappearedUpTo(phases, current, k) == r[k - 1 := MarkEntry(r[k - 1], current)];
    }
  }

  /** With names unique, the pass rewrites each pair independently of the others. */
  lemma DisappearedPointwise(phases: seq<Entry>, current: map<string, string>)
    requires UniqueJobs(phases)
    ensures forall i :: 0 <= i < |phases| ==> Disappeared(phases, current)[i] == MarkEntry(phases[i], current)
  {
    DisappearedUpToMarks(phases, current, |phases|);
  }

  /**
   * What the pass promises, for a list without duplicates: afterwards no pair
   * is `Running` unless its job was observed; exactly the unobserved `Running`
   * pairs changed, and they became `Disappeared`; names, order and length stay.
   */
  lemma DisappearanceProperties(phases: seq<Entry>, current: map<string, string>)
    requires UniqueJobs(phases)
    ensures var r := Disappeared(phases, current);
            SameJobs(phases, r) && UniqueJobs(r) &&
            (forall i :: 0 <= i < |r| && r[i].1 == RUNNING ==> r[i].0 in current) &&
            (forall i :: 0 <= i < |r| ==>
               (r[i] != phases[i] <==> phases[i].1 == RUNNING && phases[i].0 !in current)) &&
            (forall i :: 0 <= i < |r| && r[i] != phases[i] ==> r[i] == (phases[i].0, DISAPPEARED))
  {
    DisappearedUpToJobs(phases, current, |phases|);
    DisappearedPointwise(phases, current);
  }

  /** One step of the loop never takes `Succeeded` away from what is read for a job. */
  lemma VisitKeepsSucceeded(r: seq<Entry>, current: map<string, string>, i: nat, job: string)
    requires GetJobPhase(job, r) == Some(SUCCEEDED)
    ensures GetJobPhase(job, Visit(r, current, i)) == Some(SUCCEEDED)
  {
    if i < |r| && r[i].1 == RUNNING && r[i].0 !in current {
      if r[i].0 != job {
        GetOtherAfterSet(r, r[i].0, DISAPPEARED, job);
      } else {
        assert HasJob(r, job);
        var l :| 0 <= l < |r| && r[l] == (job, SUCCEEDED) &&
                 forall m :: l < m < |r| ==> r[m].0 != job;
        assert i < l;
        ShadowedWrite(r, job, FirstIndex(r, job), l, DISAPPEARED);
      }
    }
  }

  /**
   * Sticky success through the disappearance pass, for any list: a job read
   * as `Succeeded` before the pass is read as `Succeeded` after it.
   */
  lemma {:induction false} DisappearedKeepsSucceeded(phases: seq<Entry>, current: map<string, string>, k: nat,
                                                     job: string)
    requires k <= |phases| && GetJobPhase(job, phases) == Some(SUCCEEDED)
    ensures GetJobPhase(job, DisappearedUpTo(phases, current, k)) == Some(SUCCEEDED)
    decreases k
  {
    if k > 0 {
      DisappearedKeepsSucceeded(phases, current, k - 1, job);
      var r := DisappearedUpTo(phases, current, k - 1);
      VisitKeepsSucceeded(r, current, k - 1, job);
      assert DisappearedUpTo(phases, current, k) == Visit(r, current, k - 1);
    }
  }

  /** The phase the pass gives a job, from its merged phase and whether it was observed. */
  function DisappearedPhase(merged: Option<string>, observed: bool): Option<string> {
    if merged == Some(RUNNING) && !observed then Some(DISAPPEARED) else merged
  }

  /** Per job, in a list without duplicates: the pass reads as `DisappearedPhase`. */
  lemma DisappearedPhaseOf(phases: seq<Entry>, current: map<string, string>, job: string)
    requires UniqueJobs(phases)
    ensures GetJobPhase(job, Disappeared(phases, current)) ==
            DisappearedPhase(GetJobPhase(job, phases), job in current)
  {
    var r := Disappeared(phases, current);
    DisappearanceProperties(phases, current);
    if HasJob(phases, job) {
      var i := FirstIndex(phases, job);
      GetUnique(phases, i);
      GetUnique(r, i);
    } else {
      assert !HasJob(r, job);
    }
  }
}
