/**
 * Readiness: whether a dependency is in its required phase, whether a job
 * should run, and the desired job list (examples/jobtree/sync.py:32-88).
 */
module Readiness {
  import opened Wrappers
  import opened PhaseStore

  /** `(job name, required phase)`. */
  type Dependency = (string, string)

  /** A declared job with the dependencies it waits for, all of which must hold. */
  type Declared = (string, seq<Dependency>)

  /** `phase_matches`: `Succeeded` is also met by `Disappeared`; any other requirement needs that exact phase. */
  predicate PhaseMatches(dependency: Dependency, phases: seq<Entry>) {
    var (name, required) := dependency;
    var current := GetJobPhase(name, phases);
    if required == SUCCEEDED then current == Some(SUCCEEDED) || current == Some(DISAPPEARED)
    else current == Some(required)
  }

  /** A job already `Succeeded` or `Disappeared` is done. */
  predicate IsDone(phase: Option<string>) {
    phase == Some(SUCCEEDED) || phase == Some(DISAPPEARED)
  }

  /** `should_run`: a job runs unless it is done, and only once every dependency matches. */
  predicate ShouldRun(job: string, phases: seq<Entry>, dependencies: seq<Dependency>) {
    if IsDone(GetJobPhase(job, phases)) then false
    else forall i :: 0 <= i < |dependencies| ==> PhaseMatches(dependencies[i], phases)
  }

  /** `calculate_jobs`: the declared jobs that should run, in declaration order. */
  function CalculateJobs(declared: seq<Declared>, phases: seq<Entry>): (desired: seq<string>)
    ensures |desired| <= |declared|
    ensures forall job :: job in desired <==>
              exists i :: 0 <= i < |declared| && declared[i].0 == job && ShouldRun(job, phases, declared[i].1)
    decreases |declared|
  {
    if |declared| == 0 then []
    else
      var (job, dependencies) := declared[0];
      var rest := CalculateJobs(declared[1..], phases);
      assert forall i :: 1 <= i < |declared| ==> declared[1..][i - 1] == declared[i];
      (if ShouldRun(job, phases, dependencies) then [job] else []) + rest
  }

  /**
   * What a recorded phase satisfies: with the job's pair at position `i` of a
   * list without duplicates, `Succeeded` is required-and-met exactly by
   * `Succeeded` or `Disappeared`, and every other requirement exactly by itself.
   */
  lemma PhaseMatchesRecorded(phases: seq<Entry>, i: int, required: string)
    requires UniqueJobs(phases) && 0 <= i < |phases|
    ensures required == SUCCEEDED ==>
              (PhaseMatches((phases[i].0, required), phases) <==>
               phases[i].1 == SUCCEEDED || phases[i].1 == DISAPPEARED)
    ensures required != SUCCEEDED ==>
              (PhaseMatches((phases[i].0, required), phases) <==> phases[i].1 == required)
  {
    GetUnique(phases, i);
  }

  /** A dependency on a job with no recorded phase matches no requirement. */
  lemma UnrecordedNeverMatches(phases: seq<Entry>, dependency: Dependency)
    requires !HasJob(phases, dependency.0)
    ensures !PhaseMatches(dependency, phases)
  {
  }

  /** A job that is done never runs, whatever its dependencies. */
  lemma DoneNeverRuns(job: string, phases: seq<Entry>, dependencies: seq<Dependency>)
    requires IsDone(GetJobPhase(job, phases))
    ensures !ShouldRun(job, phases, dependencies)
  {
  }

  /**
   * Dependencies are a conjunction: a job that is not done runs with no
   * dependencies, and runs with a list exactly when it runs with each part.
   */
  lemma ShouldRunConjunction(job: string, phases: seq<Entry>, first: seq<Dependency>, second: seq<Dependency>)
    ensures !IsDone(GetJobPhase(job, phases)) ==> ShouldRun(job, phases, [])
    ensures ShouldRun(job, phases, first + second) <==>
              ShouldRun(job, phases, first) && ShouldRun(job, phases, second)
  {
    var both := first + second;
    assert forall i :: 0 <= i < |first| ==> both[i] == first[i];
    assert forall i :: 0 <= i < |second| ==> both[|first| + i] == second[i];
  }

  /** One unmet dependency keeps a job from running. */
  lemma UnmetDependencyBlocks(job: string, phases: seq<Entry>, dependencies: seq<Dependency>, i: int)
    requires 0 <= i < |dependencies| && !PhaseMatches(dependencies[i], phases)
    ensures !ShouldRun(job, phases, dependencies)
  {
  }

  /**
   * `calculate_jobs` is an order-preserving filter: over a concatenation it is
   * the concatenation of the two results, and a single declared job is kept
   * exactly when it should run.
   */
  lemma {:induction false} CalculateJobsFilter(first: seq<Declared>, second: seq<Declared>, phases: seq<Entry>)
    ensures CalculateJobs(first + second, phases) == CalculateJobs(first, phases) + CalculateJobs(second, phases)
    ensures forall d: Declared :: CalculateJobs([d], phases) == if ShouldRun(d.0, phases, d.1) then [d.0] else []
    decreases |first|
  {
    if |first| > 0 {
      assert (first + second)[1..] == first[1..] + second;
      CalculateJobsFilter(first[1..], second, phases);
    } else {
      assert first + second == second;
    }
    forall d: Declared ensures CalculateJobs([d], phases) == if ShouldRun(d.0, phases, d.1) then [d.0] else [] {
      assert [d][1..] == [];
    }
  }

  /** No declared jobs, no desired jobs. */
  lemma NoJobsDeclared(phases: seq<Entry>)
    ensures CalculateJobs([], phases) == []
  {
  }

  /** The desired jobs depend on the phase list only through what `get_job_phase` reads. */
  lemma {:induction false} CalculateJobsReadsPhases(declared: seq<Declared>, phases: seq<Entry>, other: seq<Entry>)
    requires forall job :: GetJobPhase(job, phases) == GetJobPhase(job, other)
    ensures CalculateJobs(declared, phases) == CalculateJobs(declared, other)
    decreases |declared|
  {
    if |declared| > 0 {
      CalculateJobsReadsPhases(declared[1..], phases, other);
      var (job, dependencies) := declared[0];
      assert forall i :: 0 <= i < |dependencies| ==>
        (PhaseMatches(dependencies[i], phases) <==> PhaseMatches(dependencies[i], other));
      assert ShouldRun(job, phases, dependencies) == ShouldRun(job, other, dependencies);
    }
  }
}
