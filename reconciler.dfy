/**
 * One reconcile cycle, the non-I/O body of `handle_json_request`
 * (examples/jobtree/sync.py:160-226): merge the observed pod phases into the
 * recorded ones, mark vanished `Running` jobs `Disappeared`, pick the jobs
 * that should run, and build one pod per desired template container.
 */
module Reconciler {
  import opened Wrappers
  import opened Document
  import opened PhaseStore
  import opened Readiness
  import opened ChildNaming
  import opened Merge
  import opened Disappearance

  const DEFAULT_RESTART_POLICY: string := "Never"
  const POD_API_VERSION: string := "v1"
  const POD_KIND: string := "Pod"

  /** A container of the parent's pod template: its name and the rest of its definition, copied as is. */
  datatype Container = Container(name: string, settings: map<string, Json>)

  /** A child pod as `new_pod` builds it. */
  datatype Pod = Pod(apiVersion: string, kind: string, name: string,
                     containers: seq<Container>, restartPolicy: string)

  /**
   * The fields of the sync request the cycle reads: `parent:metadata:name`,
   * `parent:spec:template:spec:restartPolicy` (optional),
   * `parent:status:counter` (optional), `parent:status:phases`,
   * `parent:spec:dependencies`, `parent:spec:template:spec:containers` and the
   * pods of `children:Pod.v1` with their `status.phase`.
   */
  datatype Request = Request(
    parentName: string,
    restartPolicy: Option<string>,
    counter: Option<int>,
    previousPhases: seq<Entry>,
    dependencies: seq<Declared>,
    containers: seq<Container>,
    pods: seq<PodPhase>)

  /** The response: `status.phases`, `status.counter` and `children`. */
  datatype Response = Response(phases: seq<Entry>, counter: int, children: seq<Pod>)

  /** `new_pod`: a pod named after the container, holding only it, with the template's restart policy. */
  function NewPod(prefix: string, restartPolicy: string, container: Container): Pod {
    Pod(POD_API_VERSION, POD_KIND, PodName(prefix, container.name), [container], restartPolicy)
  }

  /** The desired pods: one per template container whose name is a desired job, in container order. */
  function DesiredPods(prefix: string, restartPolicy: string, containers: seq<Container>, desired: seq<string>)
    : (pods: seq<Pod>)
    ensures |pods| <= |containers|
    ensures forall pod :: pod in pods <==>
              exists c :: c in containers && c.name in desired && pod == NewPod(prefix, restartPolicy, c)
    decreases |containers|
  {
    if |containers| == 0 then []
    else
      var c := containers[0];
      var rest := DesiredPods(prefix, restartPolicy, containers[1..], desired);
      assert forall x :: x in containers <==> x == c || x in containers[1..];
      (if c.name in desired then [NewPod(prefix, restartPolicy, c)] else []) + rest
  }

  /** The response of one cycle, step by step as `handle_json_request` computes it. */
  function Reconciled(request: Request): Response {
    var prefix := NamePrefix(request.parentName);
    var restartPolicy := request.restartPolicy.GetOr(DEFAULT_RESTART_POLICY);
    var merged := Merged(request.previousPhases, prefix, request.pods);
    var phases := Disappeared(merged, Observed(prefix, request.pods));
    var desired := CalculateJobs(request.dependencies, phases);
    Response(phases, request.counter.GetOr(0) + 1, DesiredPods(prefix, restartPolicy, request.containers, desired))
  }

  /** `handle_json_request` without its logging, with `calculate_jobs` as the calculator. */
  method Reconcile(request: Request) returns (response: Response)
    ensures response == Reconciled(request)
    ensures response.counter == if request.counter.None? then 1 else request.counter.value + 1
  {
    var counter := request.counter.GetOr(0);
    var prefix := NamePrefix(request.parentName);
    var restartPolicy := request.restartPolicy.GetOr(DEFAULT_RESTART_POLICY);
    var phases, current := MergeObserved(request.previousPhases, prefix, request.pods);
    phases := MarkDisappeared(phases, current);
    var desired := CalculateJobs(request.dependencies, phases);
    var pods := DesiredPods(prefix, restartPolicy, request.containers, desired);
    response := Response(phases, counter + 1, pods);
  }

  // ---------------------------------------------------------------------------
  // The per-job state machine
  // ---------------------------------------------------------------------------

  /**
   * The phase one cycle records for a job, from the phase recorded last cycle
   * and the phase its pod reports now (`None`: no pod). `Succeeded` is sticky;
   * an observation wins otherwise; a `Running` job whose pod vanished becomes
   * `Disappeared`; anything else is kept.
   */
  function NextPhase(previous: Option<string>, observed: Option<string>): Option<string> {
    if previous == Some(SUCCEEDED) then previous
    else match observed
      case Some(phase) => Some(phase)
      case None => if previous == Some(RUNNING) then Some(DISAPPEARED) else previous
  }

  /**
   * With unique recorded names and distinct pod names, the cycle applies
   * `NextPhase` to every job independently and keeps names unique.
   */
  lemma CyclePhaseOf(request: Request, job: string)
    requires UniqueJobs(request.previousPhases) && DistinctPods(request.pods)
    ensures UniqueJobs(Reconciled(request).phases)
    ensures GetJobPhase(job, Reconciled(request).phases) ==
            NextPhase(GetJobPhase(job, request.previousPhases),
                      ObservedPhase(Observed(NamePrefix(request.parentName), request.pods), job))
  {
    var prefix := NamePrefix(request.parentName);
    var merged := Merged(request.previousPhases, prefix, request.pods);
    var current := Observed(prefix, request.pods);
    MergedShape(request.previousPhases, prefix, request.pods);
    MergedPhaseOf(request.previousPhases, prefix, request.pods, job);
    DisappearedPhaseOf(merged, current, job);
    DisappearanceProperties(merged, current);
  }

  /** Sticky success over a whole cycle, for any recorded list and any pods. */
  lemma CycleKeepsSucceeded(request: Request, job: string)
    requires GetJobPhase(job, request.previousPhases) == Some(SUCCEEDED)
    ensures GetJobPhase(job, Reconciled(request).phases) == Some(SUCCEEDED)
  {
    var prefix := NamePrefix(request.parentName);
    var merged := Merged(request.previousPhases, prefix, request.pods);
    MergeKeepsSucceeded(request.previousPhases, prefix, request.pods, job);
    DisappearedKeepsSucceeded(merged, Observed(prefix, request.pods), |merged|, job);
  }

  /**
   * Disappearance policy: a job recorded `Running` with no child pod this
   * cycle becomes `Disappeared`, and a requirement that it be `Succeeded` is met.
   */
  lemma CycleDisappearance(request: Request, job: string)
    requires UniqueJobs(request.previousPhases) && DistinctPods(request.pods)
    requires GetJobPhase(job, request.previousPhases) == Some(RUNNING)
    requires job !in Observed(NamePrefix(request.parentName), request.pods)
    ensures GetJobPhase(job, Reconciled(request).phases) == Some(DISAPPEARED)
    ensures PhaseMatches((job, SUCCEEDED), Reconciled(request).phases)
  {
    CyclePhaseOf(request, job);
  }

  /** No pod is ever built for a job that is done (`Succeeded` or `Disappeared`) after the merge. */
  lemma NoPodForDoneJob(request: Request)
    ensures var response := Reconciled(request);
            forall pod :: pod in response.children ==>
              |pod.containers| == 1 && !IsDone(GetJobPhase(pod.containers[0].name, response.phases))
  {
  }

  /**
   * Every child pod is `<parent>-<container>`, holds that single template
   * container, uses the template restart policy (default `Never`), and its
   * name is recognised as this parent's child whose job is the container name.
   */
  lemma ChildPodsShape(request: Request)
    ensures var response := Reconciled(request);
            var prefix := NamePrefix(request.parentName);
            forall pod :: pod in response.children ==>
              exists c :: c in request.containers && pod.containers == [c] &&
                pod.name == request.parentName + "-" + c.name &&
                pod.apiVersion == POD_API_VERSION && pod.kind == POD_KIND &&
                pod.restartPolicy == request.restartPolicy.GetOr(DEFAULT_RESTART_POLICY) &&
                IsMyChild(prefix, pod.name) && ExtractName(prefix, pod.name) == c.name
  {
    var prefix := NamePrefix(request.parentName);
    forall c | c in request.containers ensures
      IsMyChild(prefix, PodName(prefix, c.name)) && ExtractName(prefix, PodName(prefix, c.name)) == c.name
    {
      PodNameRoundTrip(prefix, c.name);
    }
  }

  /**
   * Pods are selected in container order: over a concatenation of container
   * lists the result is the concatenation, and a single container gives its
   * pod exactly when its name is desired.
   */
  lemma {:induction false} DesiredPodsFilter(prefix: string, restartPolicy: string, first: seq<Container>,
                                             second: seq<Container>, desired: seq<string>)
    ensures DesiredPods(prefix, restartPolicy, first + second, desired) ==
            DesiredPods(prefix, restartPolicy, first, desired) + DesiredPods(prefix, restartPolicy, second, desired)
    ensures forall c :: DesiredPods(prefix, restartPolicy, [c], desired) ==
              if c.name in desired then [NewPod(prefix, restartPolicy, c)] else []
    decreases |first|
  {
    if |first| > 0 {
      assert (first + second)[1..] == first[1..] + second;
      DesiredPodsFilter(prefix, restartPolicy, first[1..], second, desired);
    } else {
      assert first + second == second;
    }
    forall c ensures DesiredPods(prefix, restartPolicy, [c], desired) ==
                     if c.name in desired then [NewPod(prefix, restartPolicy, c)] else [] {
      assert [c][1..] == [];
    }
  }

  /** With no desired job, no container gets a pod. */
  lemma {:induction false} NothingDesiredNoPods(prefix: string, restartPolicy: string, containers: seq<Container>)
    ensures DesiredPods(prefix, restartPolicy, containers, []) == []
    decreases |containers|
  {
    if |containers| > 0 {
      NothingDesiredNoPods(prefix, restartPolicy, containers[1..]);
    }
  }

  /** No declared jobs, no pods. */
  lemma EmptyGraphNoPods(request: Request)
    requires request.dependencies == []
    ensures Reconciled(request).children == []
  {
    NothingDesiredNoPods(NamePrefix(request.parentName), request.restartPolicy.GetOr(DEFAULT_RESTART_POLICY),
                         request.containers);
  }

  /** `NextPhase` reaches a fixed point at once: a second cycle with the same observation changes nothing. */
  lemma NextPhaseIdempotent(previous: Option<string>, observed: Option<string>)
    ensures NextPhase(NextPhase(previous, observed), observed) == NextPhase(previous, observed)
  {
  }

  /**
   * A pair that one more cycle with the same observation leaves alone: an
   * observed job holds its observation (or `Succeeded`), an unobserved one is
   * not `Running`.
   */
  predicate EntrySettled(entry: Entry, observed: map<string, string>) {
    (entry.0 in observed ==> entry.1 == SUCCEEDED || entry.1 == observed[entry.0]) &&
    (entry.0 !in observed ==> entry.1 != RUNNING)
  }

  /** A settled pair is a fixed point of the merge followed by the disappearance pass. */
  lemma EntrySettledStable(entry: Entry, observed: map<string, string>)
    requires EntrySettled(entry, observed)
    ensures MarkEntry(OverlayEntry(entry, observed), observed) == entry
  {
  }

  /** Every pair of a cycle's phases is settled, and every observed job has a pair. */
  lemma CycleSettles(request: Request)
    requires UniqueJobs(request.previousPhases) && DistinctPods(request.pods)
    ensures var observed := Observed(NamePrefix(request.parentName), request.pods);
            var phases := Reconciled(request).phases;
            (forall i :: 0 <= i < |phases| ==> EntrySettled(phases[i], observed)) &&
            (forall job :: job in observed ==> HasJob(phases, job))
  {
    var previous := request.previousPhases;
    var prefix := NamePrefix(request.parentName);
    var observed := Observed(prefix, request.pods);
    var merged := Merged(previous, prefix, request.pods);
    var added := NewEntries(previous, prefix, request.pods);
    var phases := Reconciled(request).phases;
    MergedShape(previous, prefix, request.pods);
    NewEntriesAreObserved(previous, prefix, request.pods);
    DisappearedPointwise(merged, observed);
    assert merged == Overlay(previous, observed) + added;
    forall i | 0 <= i < |phases| ensures EntrySettled(phases[i], observed) {
      if i >= |previous| {
        assert merged[i] == added[i - |previous|];
      }
    }
    forall job | job in observed ensures HasJob(phases, job) {
      if HasJob(previous, job) {
        var k :| 0 <= k < |previous| && previous[k].0 == job;
        assert phases[k].0 == merged[k].0;
      } else {
        var k :| 0 <= k < |added| && added[k].0 == job;
        assert merged[|previous| + k] == added[k];
      }
    }
  }

  /** With every observed job present in `phases`, the merge appends nothing. */
  lemma NothingNew(phases: seq<Entry>, prefix: string, pods: seq<PodPhase>)
    requires DistinctPods(pods)
    requires forall job :: job in Observed(prefix, pods) ==> HasJob(phases, job)
    ensures NewEntries(phases, prefix, pods) == []
  {
    var added := NewEntries(phases, prefix, pods);
    NewEntriesAreObserved(phases, prefix, pods);
    if added != [] {
      assert added[0].0 in Observed(prefix, pods);
    }
  }

  /**
   * Feeding a cycle's phases back with the same observed pods gives back
   * exactly the same phase list.
   */
  lemma CyclePhasesStable(request: Request)
    requires UniqueJobs(request.previousPhases) && DistinctPods(request.pods)
    ensures var first := Reconciled(request);
            Reconciled(request.(previousPhases := first.phases, counter := Some(first.counter))).phases ==
            first.phases
  {
    var first := Reconciled(request);
    var phases := first.phases;
    var prefix := NamePrefix(request.parentName);
    var observed := Observed(prefix, request.pods);
    CyclePhaseOf(request, "");
    CycleSettles(request);
    MergedShape(phases, prefix, request.pods);
    NothingNew(phases, prefix, request.pods);
    var merged := Merged(phases, prefix, request.pods);
    assert merged == Overlay(phases, observed);
    DisappearedPointwise(merged, observed);
    var second := Disappeared(merged, observed);
    forall i | 0 <= i < |phases| ensures second[i] == phases[i] {
      EntrySettledStable(phases[i], observed);
    }
    assert second == phases;
  }

  /**
   * Idempotence of the level-triggered loop: feeding a cycle's response state
   * back with the same observed pods records exactly the same phase list and
   * asks for exactly the same pods; only the counter moves on.
   */
  lemma CycleIdempotent(request: Request)
    requires UniqueJobs(request.previousPhases) && DistinctPods(request.pods)
    ensures var first := Reconciled(request);
            var second := Reconciled(request.(previousPhases := first.phases, counter := Some(first.counter)));
            second.phases == first.phases &&
            second.children == first.children &&
            second.counter == first.counter + 1
  {
    CyclePhasesStable(request);
  }

  // ---------------------------------------------------------------------------
  // Worked cycles
  // ---------------------------------------------------------------------------

  /** Parent `MyName`, job `A` without dependencies, nothing recorded or observed: one pod `MyName-A`. */
  lemma FirstCycle()
    ensures var a := Container("A", map[]);
            Reconciled(Request("MyName", None, None, [], [("A", [])], [a], [])) ==
            Response([], 1, [Pod("v1", "Pod", "MyName-A", [a], "Never")])
  {
    var a := Container("A", map[]);
    var request := Request("MyName", None, None, [], [("A", [])], [a], []);
    assert NamePrefix("MyName") == "MyName-";
    assert Merged([], "MyName-", []) == [];
    assert Observed("MyName-", []) == map[];
    assert Disappeared([], map[]) == [];
    assert ShouldRun("A", [], []);
    assert CalculateJobs([("A", [])], []) == ["A"];
    assert DesiredPods("MyName-", "Never", [a], ["A"]) == [NewPod("MyName-", "Never", a)];
    assert PodName("MyName-", "A") == "MyName-A";
    assert NewPod("MyName-", "Never", a) == Pod("v1", "Pod", "MyName-A", [a], "Never");
    assert Reconciled(request) == Response([], 1, [Pod("v1", "Pod", "MyName-A", [a], "Never")]);
  }

  /** `A` recorded `Succeeded` and `B` waiting for it, no pods: `B` is desired and `A` is not rerun. */
  lemma DependencySucceeded()
    ensures var a, b := Container("A", map[]), Container("B", map[]);
            var response := Reconciled(Request("MyName", None, Some(4), [("A", SUCCEEDED)],
                                               [("A", []), ("B", [("A", SUCCEEDED)])], [a, b], []));
            response.phases == [("A", SUCCEEDED)] && response.counter == 5 &&
            response.children == [NewPod("MyName-", "Never", b)]
  {
    var a, b := Container("A", map[]), Container("B", map[]);
    var phases := [("A", SUCCEEDED)];
    var declared: seq<Declared> := [("A", []), ("B", [("A", SUCCEEDED)])];
    var request := Request("MyName", None, Some(4), phases, declared, [a, b], []);
    assert NamePrefix("MyName") == "MyName-";
    assert Merged(phases, "MyName-", []) == phases;
    assert Observed("MyName-", []) == map[];
    assert Disappeared(phases, map[]) == phases by {
      DisappearedPointwise(phases, map[]);
    }
    assert GetJobPhase("A", phases) == Some(SUCCEEDED);
    assert GetJobPhase("B", phases) == None;
    assert !ShouldRun("A", phases, []);
    assert ShouldRun("B", phases, [("A", SUCCEEDED)]);
    CalculateJobsFilter([declared[0]], [declared[1]], phases);
    assert declared == [declared[0]] + [declared[1]];
    assert CalculateJobs(declared, phases) == ["B"];
    DesiredPodsFilter("MyName-", "Never", [a], [b], ["B"]);
    assert [a, b] == [a] + [b];
    assert Reconciled(request) == Response(phases, 5, [NewPod("MyName-", "Never", b)]);
  }

  /** `A` recorded `Running` and no longer observed: it becomes `Disappeared`, and `C` waiting for it runs. */
  lemma DependencyDisappeared()
    ensures var c := Container("C", map[]);
            var response := Reconciled(Request("MyName", Some("OnFailure"), None, [("A", RUNNING)],
                                               [("C", [("A", SUCCEEDED)])], [c], []));
            response.phases == [("A", DISAPPEARED)] &&
            response.children == [Pod("v1", "Pod", "MyName-C", [c], "OnFailure")]
  {
    var c := Container("C", map[]);
    var phases := [("A", RUNNING)];
    var marked := [("A", DISAPPEARED)];
    var request := Request("MyName", Some("OnFailure"), None, phases, [("C", [("A", SUCCEEDED)])], [c], []);
    assert NamePrefix("MyName") == "MyName-";
    assert Merged(phases, "MyName-", []) == phases;
    assert Observed("MyName-", []) == map[];
    assert Disappeared(phases, map[]) == marked by {
      DisappearedPointwise(phases, map[]);
    }
    assert GetJobPhase("A", marked) == Some(DISAPPEARED);
    assert GetJobPhase("C", marked) == None;
    assert ShouldRun("C", marked, [("A", SUCCEEDED)]);
    assert CalculateJobs([("C", [("A", SUCCEEDED)])], marked) == ["C"];
    assert DesiredPods("MyName-", "OnFailure", [c], ["C"]) == [NewPod("MyName-", "OnFailure", c)];
    assert PodName("MyName-", "C") == "MyName-C";
    assert Reconciled(request) == Response(marked, 1, [Pod("v1", "Pod", "MyName-C", [c], "OnFailure")]);
  }
}
