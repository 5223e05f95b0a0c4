# JobTree reconciler — a Dafny model

JobTree is a Metacontroller "composite controller" webhook. It runs a tree
of Kubernetes jobs, one pod per job, in dependency order. Each sync call
hands the controller two things:

- the parent object: the pod template's containers, the declared dependencies, and the `status` it returned last time;
- the child pods that exist right now.

The controller answers with a new `status` and the list of child pods that
should exist. Between calls it keeps only that `status`, with two fields:

- `phases`, a list of `(job, phase)` pairs that remembers the last known phase of every job, including jobs whose pods are gone;
- `counter`, the number of cycles so far, read back as `parent:status:counter` and advanced by one each cycle.

The model covers one reconcile cycle of `handle_json_request` and everything
that cycle calls. HTTP handling and logging are not modelled.

- **Document** (`document.dfy`) models the request document as a JSON-like
  tree, together with `getpath`. `getpath` walks a colon-separated key path
  and takes an optional default. When a default is given, a missing
  intermediate key behaves like an empty dictionary. `Ellipsis` ("no
  default") is written `None`. Python's `KeyError`,
  `TypeError` and `AttributeError` become `Err` values. `GetPath` is proved
  equal to a plain resolution of the split key list, and each pair of rows
  of the repository's test table is a lemma.
- **PhaseStore** (`phase_store.dfy`) models the phase list together with
  `get_job_phase` and `set_job_phase`:
  - `get_job_phase` reads the list as a dictionary, so the last pair named `job` wins.
  - `set_job_phase` rewrites the first pair named `job` in place, or appends a new pair. It is a method with its search loop, proved against the function `Assigned`.
  - With unique names, reading after a write gives the phase just written, and writes never introduce duplicates.
  - With a duplicated name, a write can be hidden. `DuplicateHidesWrite` shows this.
- **Readiness** (`readiness.dfy`):
  - `phase_matches`: a `Succeeded` requirement is also met by the internal `Disappeared` phase.
  - `should_run`: a job runs unless it is done, and then only once all of its dependencies match.
  - `calculate_jobs`: an order-preserving filter over the declared jobs.
- **ChildNaming** (`child_naming.dfy`) covers the `<parent>-<job>` pod
  naming, `is_my_child` and `extract_name`, and their round trip.
- **Merge** (`merge.dfy`) models the pod loop. Each of the parent's child
  pods records its job's observed phase in `current_jobs`. It also
  overwrites the job's pair, unless that pair is already `Succeeded`
  ("sticky success"). Jobs seen for the first time are appended in pod
  order. The loop is a method proved against a fold. With unique names its
  result is characterised exactly: every previous pair stays in place, an
  observation overrides it unless the pair is `Succeeded`, and the new jobs
  follow.
- **Disappearance** (`disappearance.dfy`) models the second loop. A `Running`
  job that no pod reports any longer is marked `Disappeared`, which later
  counts as success. The loop rewrites the list while it walks it, and the
  model keeps that: each step reads the pair from the list being rewritten.
- **Reconciler** (`reconciler.dfy`):
  - the whole cycle: the counter (default 0, plus one), the restart policy (default `Never`), `new_pod` and the pod selection;
  - the per-job state machine `NextPhase`. The cycle applies it to every job independently, and it is idempotent;
  - properties of the cycle: a second cycle fed the first one's status, with the same observations, records exactly the same phase list and asks for the same pods; no pod is built for a finished job; worked examples.

The phase list is a list of pairs, as the code builds it. The response keeps
that shape too. Descriptions of the status field as a map (and the
repository's `test_dummy`, which expects a map and declares dependencies as a
dictionary) do not match the code. The model follows the code.

## Model

| member | source | states |
|---|---|---|
| Document.GetPath | examples/jobtree/sync.py:104-130 | definition of `getpath` itself: split off the first key; with more keys, index strictly (no default) or with `.get(key, {})` (a default), then recurse on the re-joined rest; at the last key, index strictly or `.get(key, default)`. An error short-cuts the recursion. What it computes is stated by `Document.GetPathResolves` |
| Document.Index | examples/jobtree/sync.py:120-128 | definition of `root[key]` (lines 120 and 128): the value, `MissingKey` for an absent key, `NotAnObject` on a non-dictionary |
| Document.Get | examples/jobtree/sync.py:122-130 | definition of `root.get(key, fallback)` (lines 122 and 130): the value, the fallback for an absent key, `NotAnObject` on a non-dictionary |
| Document.Join | examples/jobtree/sync.py:123 | definition of `':'.join(parts)`; `Document.JoinSplit` and `Document.SplitJoin` state it inverts `Split` |
| Document.Walk | examples/jobtree/sync.py:107-112 | reference definition: the docstring's promise, following the keys with no default and naming the first missing key or the first key looked up in a non-dictionary |
| Document.Expected | examples/jobtree/sync.py:107-112 | reference definition: the result the docstring promises for each outcome of `Walk`, namely the value, `KeyError` or the default, or an error |
| Document.Split | examples/jobtree/sync.py:115 | splitting a path on `:` yields at least one key, and no key contains the separator |
| Document.JoinSplit | examples/jobtree/sync.py:115-123 | re-joining the keys of a split path gives back the path, so the recursive call on `':'.join(rest)` sees exactly the remaining keys |
| Document.SplitJoin | examples/jobtree/sync.py:115-123 | splitting the join of separator-free keys gives back those keys |
| Document.GetPathResolves | examples/jobtree/sync.py:104-130 | `getpath` equals plain resolution of the key list: a present value is returned whatever the default; a missing key is `KeyError` without a default and the default with one; indexing a non-dictionary is an error in both modes |
| Document.EmptyGivesDefault | examples/jobtree/sync.py:119-130 | with a default, every path below an empty dictionary yields the default, because missing intermediate keys read as `{}` |
| Document.PresentPath | examples/jobtree/sync.py:115-130 | a path whose keys are all present yields the stored value, with or without a default |
| Document.MissingKeyPath | examples/jobtree/sync.py:115-130 | a missing key yields `KeyError` naming it when there is no default, and the default otherwise |
| Document.BlockedPath | examples/jobtree/sync.py:115-130 | stepping into a value that is not a dictionary fails with or without a default |
| Document.OneKey | examples/jobtree/sync.py:115-130 | a path of one separator-free key resolves that key alone |
| Document.TwoKeys | examples/jobtree/sync.py:115-130 | a path `a:b` of separator-free keys resolves `a`, then `b` |
| Document.TableEmptyOuter | examples/jobtree/test_sync.py:8-9 | `{}` and `outer`: `KeyError` without a default, the default with one |
| Document.TableEmptyOuterInner | examples/jobtree/test_sync.py:10-11 | `{}` and `outer:inner`: `KeyError` without a default, the default with one |
| Document.TableStringMissing | examples/jobtree/test_sync.py:12-13 | `{'outer': 'value'}` and `missing`: `KeyError`, or the default |
| Document.TableStringOuter | examples/jobtree/test_sync.py:14-15 | `{'outer': 'value'}` and `outer`: `'value'` in both modes |
| Document.TableStringOuterInner | examples/jobtree/test_sync.py:16-17 | `{'outer': 'value'}` and `outer:inner`: an error in both modes (type and attribute errors) |
| Document.TableEmptyInnerOuter | examples/jobtree/test_sync.py:18-19 | `{'outer': {}}` and `outer`: `{}` in both modes |
| Document.TableEmptyInnerOuterInner | examples/jobtree/test_sync.py:20-21 | `{'outer': {}}` and `outer:inner`: `KeyError`, or the default |
| Document.TableNestedOuter | examples/jobtree/test_sync.py:22-23 | the nested document and `outer`: the inner dictionary in both modes |
| Document.TableNestedOuterInner | examples/jobtree/test_sync.py:24-25 | the nested document and `outer:inner`: `'value'` in both modes |
| Document.TableNestedOuterMissing | examples/jobtree/test_sync.py:26-27 | the nested document and `outer:missing`: `KeyError`, or the default |
| PhaseStore.GetJobPhase | examples/jobtree/sync.py:16-19 | the result is `None` exactly when no pair has the name; otherwise it is the phase of a pair with that name after which no pair has it (last pair wins) |
| PhaseStore.GetUnique | examples/jobtree/sync.py:16-19 | in a list without duplicate names, each pair's phase is what is read for its name |
| PhaseStore.FirstIndex | examples/jobtree/sync.py:23-27 | the position the `for` loop stops at: the first pair with the name |
| PhaseStore.Assigned | examples/jobtree/sync.py:22-29 | the written list: the first pair with the name becomes `(job, phase)`, or `(job, phase)` is appended when there is none |
| PhaseStore.SetJobPhase | examples/jobtree/sync.py:22-29 | the search loop with its `for ... else` append computes exactly `Assigned` |
| PhaseStore.AssignedJobs | examples/jobtree/sync.py:22-29 | a write keeps every pair's name and position, and grows the list by one only when the name was missing |
| PhaseStore.AssignedUnique | examples/jobtree/sync.py:22-29 | in a list without duplicates, writing a job rewrites its own pair in place |
| PhaseStore.AssignedKeepsUnique | examples/jobtree/sync.py:22-29 | writing a phase never creates a duplicate name |
| PhaseStore.GetAfterSet | examples/jobtree/sync.py:16-29 | with unique names, reading a job right after writing it gives the phase just written |
| PhaseStore.GetOtherAfterSet | examples/jobtree/sync.py:16-29 | writing one job never changes what is read for another job |
| PhaseStore.ShadowedWrite | examples/jobtree/sync.py:16-29 | rewriting a pair that a later pair of the same name shadows does not change what is read for that name |
| PhaseStore.DuplicateHidesWrite | examples/jobtree/sync.py:16-29 | with a name recorded twice, the write goes to the first pair while the read still returns the second |
| Readiness.PhaseMatches | examples/jobtree/sync.py:44-49 | definition of `phase_matches`: a `Succeeded` requirement is met by a read of `Succeeded` or `Disappeared`, any other requirement by a read of exactly that phase |
| Readiness.IsDone | examples/jobtree/sync.py:71 | definition: a read of `Succeeded` or `Disappeared` |
| Readiness.ShouldRun | examples/jobtree/sync.py:70-75 | definition of `should_run`: the job is not done, and every dependency matches |
| Readiness.PhaseMatchesRecorded | examples/jobtree/sync.py:44-49 | for a recorded job, a `Succeeded` requirement holds exactly when the job is `Succeeded` or `Disappeared`; any other requirement holds exactly when the phase equals it |
| Readiness.UnrecordedNeverMatches | examples/jobtree/sync.py:44-49 | a dependency on a job with no recorded phase is never met |
| Readiness.DoneNeverRuns | examples/jobtree/sync.py:70-72 | a `Succeeded` or `Disappeared` job never runs, whatever its dependencies |
| Readiness.ShouldRunConjunction | examples/jobtree/sync.py:70-75 | a job that is not done runs when it has no dependencies, and runs on a split list exactly when it runs on each part |
| Readiness.UnmetDependencyBlocks | examples/jobtree/sync.py:73-75 | one unmet dependency keeps the job from running |
| Readiness.CalculateJobs | examples/jobtree/sync.py:78-88 | a job is desired exactly when some declared entry with that name should run; the result is no longer than the declaration |
| Readiness.CalculateJobsFilter | examples/jobtree/sync.py:87-88 | the desired list distributes over concatenation of the declarations, and a single declared job is kept exactly when it should run, so declaration order is kept |
| Readiness.NoJobsDeclared | examples/jobtree/sync.py:87-88 | no declared jobs, no desired jobs |
| Readiness.CalculateJobsReadsPhases | examples/jobtree/sync.py:70-88 | the desired jobs depend on the phase list only through what `get_job_phase` reads from it |
| ChildNaming.NamePrefix | examples/jobtree/sync.py:167 | definition: the parent's name followed by `-` |
| ChildNaming.IsMyChild | examples/jobtree/sync.py:169-170 | definition of `is_my_child`: the pod name starts with the prefix |
| ChildNaming.ExtractName | examples/jobtree/sync.py:172-173 | definition of `extract_name`: the pod name without its first `len(prefix)` characters, empty when it is shorter, as Python slicing gives |
| ChildNaming.PodName | examples/jobtree/sync.py:181-182 | definition: the prefix followed by the container name |
| ChildNaming.PodNameRoundTrip | examples/jobtree/sync.py:169-182 | the name `new_pod` gives a container's pod is recognised as a child, and extracting from it gives back the container name |
| ChildNaming.ChildNameRebuilds | examples/jobtree/sync.py:169-173 | a child pod's name is the prefix followed by the job name extracted from it |
| Merge.Observed | examples/jobtree/sync.py:190-194 | definition: `current_jobs` as the loop fills it, the observed phase under the extracted job name of every child pod, later pods overriding earlier ones |
| Merge.MergeStep | examples/jobtree/sync.py:192-196 | definition of one loop iteration: for a child pod, write its phase through `set_job_phase` unless its job reads `Succeeded`; other pods change nothing |
| Merge.Merged | examples/jobtree/sync.py:187-196 | definition: the fold of `MergeStep` over the pods in order, starting from a copy of the previous phases; `Merge.MergedShape` states what it computes |
| Merge.OverlayEntry | examples/jobtree/sync.py:192-196 | reference definition: a previous pair after the merge, overwritten by its observation unless `Succeeded` |
| Merge.NewEntries | examples/jobtree/sync.py:192-196 | reference definition: the child jobs with no previous pair, with their observed phase, in pod order |
| Merge.MergedPhase | examples/jobtree/sync.py:195-196 | reference definition: the per-job result of the merge, which keeps `Succeeded`, otherwise takes the observation, otherwise keeps the previous phase |
| Merge.ObservedPhase | examples/jobtree/sync.py:194 | definition: a job's entry in `current_jobs`, if any |
| Merge.MergeObserved | examples/jobtree/sync.py:187-196 | the pod loop yields the fold `Merged` of the previous phases over the pods, plus `current_jobs` as the fold `Observed` |
| Merge.Overlay | examples/jobtree/sync.py:187-196 | overlaying observations on the previous pairs keeps every name and position |
| Merge.ObservedFromPod | examples/jobtree/sync.py:191-194 | every job in `current_jobs` comes from a pod named `<prefix><job>` |
| Merge.LastPodIsNew | examples/jobtree/sync.py:191-194 | with distinct pod names, a pod's job has not been observed by the pods before it |
| Merge.NewEntriesAreObserved | examples/jobtree/sync.py:191-196 | the appended pairs are exactly the observed jobs with no previous record, each once, with its observed phase |
| Merge.MergedShape | examples/jobtree/sync.py:186-196 | with unique names and distinct pods, the merged list is the previous pairs in place, each overwritten by its observation unless `Succeeded`, followed by the newly seen jobs; names stay unique |
| Merge.MergeKeepsSucceeded | examples/jobtree/sync.py:195-196 | a job read as `Succeeded` before the loop is still read as `Succeeded` after it, for any pods and any list |
| Merge.MergedPhaseOf | examples/jobtree/sync.py:186-196 | per job, the merge keeps `Succeeded`, otherwise takes the observed phase, and otherwise keeps what was recorded |
| Merge.MergeKeepsPositions | examples/jobtree/sync.py:186-196 | previous pairs keep their positions, unobserved ones are unchanged, and the new jobs come after them |
| Disappearance.MarkDisappeared | examples/jobtree/sync.py:197-201 | the loop that rewrites the list while walking it computes exactly the fold `Disappeared` |
| Disappearance.Visit | examples/jobtree/sync.py:198-201 | one step of the loop keeps the length of the list |
| Disappearance.DisappearedUpTo | examples/jobtree/sync.py:197-201 | after any number of steps the list keeps its length |
| Disappearance.Disappeared | examples/jobtree/sync.py:197-201 | the pass keeps the length of the list |
| Disappearance.MarkEntry | examples/jobtree/sync.py:198-201 | reference definition: one pair after the pass, where an unobserved `Running` pair becomes `Disappeared` |
| Disappearance.DisappearedPhase | examples/jobtree/sync.py:198-201 | reference definition: the per-job result of the pass, `Disappeared` for a `Running` job that was not observed and the merged phase otherwise |
| Disappearance.VisitKeepsSucceeded | examples/jobtree/sync.py:197-201 | one step of the loop never takes `Succeeded` away from what is read for a job, for any list |
| Disappearance.DisappearedKeepsSucceeded | examples/jobtree/sync.py:197-201 | sticky success through the whole pass, for any list, duplicates included |
| Disappearance.DisappearedUpToJobs | examples/jobtree/sync.py:197-201 | every prefix of the pass keeps every name and position |
| Disappearance.DisappearedUpToMarks | examples/jobtree/sync.py:197-201 | with unique names, after `k` steps exactly the first `k` pairs have been marked and the rest are untouched |
| Disappearance.DisappearedPointwise | examples/jobtree/sync.py:197-201 | with unique names, the pass rewrites each pair independently: an unobserved `Running` pair becomes `Disappeared` |
| Disappearance.DisappearanceProperties | examples/jobtree/sync.py:197-201 | afterwards no pair is `Running` unless its job was observed; exactly the unobserved `Running` pairs changed, and they became `Disappeared`; names and order stay |
| Disappearance.DisappearedPhaseOf | examples/jobtree/sync.py:197-201 | per job, the phase read after the pass is `Disappeared` exactly for a `Running` job that was not observed, and the merged phase otherwise |
| Reconciler.NewPod | examples/jobtree/sync.py:178-184 | definition of `new_pod`: a `v1` `Pod` named prefix plus container name, holding only that container, with the template's restart policy |
| Reconciler.Reconciled | examples/jobtree/sync.py:160-226 | definition of one cycle as a composition: merge, disappearance pass, `calculate_jobs`, pod selection, counter plus one; `Reconciler.Reconcile` is proved to compute it and the `Cycle...` lemmas state its properties |
| Reconciler.NextPhase | examples/jobtree/sync.py:186-201 | reference definition: the per-job state machine, in which `Succeeded` is sticky, an observation wins, a vanished `Running` job becomes `Disappeared`, and anything else is kept |
| Reconciler.DesiredPods | examples/jobtree/sync.py:210-214 | a pod is built exactly for each template container whose name is desired; no more pods than containers |
| Reconciler.DesiredPodsFilter | examples/jobtree/sync.py:211-214 | pod selection distributes over concatenation of containers, and a single container gives its pod exactly when its name is desired, so container order is kept |
| Reconciler.NothingDesiredNoPods | examples/jobtree/sync.py:211-214 | with no desired job, no pod is built |
| Reconciler.Reconcile | examples/jobtree/sync.py:160-226 | one cycle computes the composition `Reconciled`; the counter is the previous counter plus one, and 1 on the first call |
| Reconciler.CyclePhaseOf | examples/jobtree/sync.py:186-201 | with unique names and distinct pods, the phase recorded for each job after a cycle is `NextPhase` of its previous phase and its observation, and names stay unique |
| Reconciler.CycleKeepsSucceeded | examples/jobtree/sync.py:195-201 | a job read as `Succeeded` is still read as `Succeeded` after a whole cycle, for any recorded list (duplicates included) and any pods |
| Reconciler.CycleDisappearance | examples/jobtree/sync.py:197-201 | a `Running` job with no child pod becomes `Disappeared`, and a requirement that it be `Succeeded` is then met |
| Reconciler.NoPodForDoneJob | examples/jobtree/sync.py:204-214 | every child pod holds one container, and that container's job is neither `Succeeded` nor `Disappeared` in the returned phases |
| Reconciler.ChildPodsShape | examples/jobtree/sync.py:167-184 | every child pod is `v1`/`Pod`, is named `<parent>-<container>`, holds exactly that template container, uses the template restart policy (default `Never`), and is recognised as this parent's child for that job |
| Reconciler.EmptyGraphNoPods | examples/jobtree/sync.py:204-214 | with no declared jobs, no pods are desired |
| Reconciler.NextPhaseIdempotent | examples/jobtree/sync.py:186-201 | applying the per-job transition twice with the same observation equals applying it once |
| Reconciler.CycleIdempotent | examples/jobtree/sync.py:160-226 | feeding a response's phases and counter back with the same pods returns exactly the same phase list and the same pods; only the counter advances |
| Reconciler.EntrySettled | examples/jobtree/sync.py:192-201 | definition: a pair another cycle leaves alone, that is an observed job holding its observation or `Succeeded`, and an unobserved job that is not `Running` |
| Reconciler.EntrySettledStable | examples/jobtree/sync.py:192-201 | a settled pair is a fixed point of the merge followed by the disappearance pass |
| Reconciler.CycleSettles | examples/jobtree/sync.py:186-201 | with unique names and distinct pods, every pair a cycle returns is settled, and every observed job has a pair |
| Reconciler.NothingNew | examples/jobtree/sync.py:191-196 | when every observed job already has a pair, the pod loop appends nothing |
| Reconciler.CyclePhasesStable | examples/jobtree/sync.py:186-201 | a second cycle fed the first one's phases, with the same pods, returns exactly the same phase list |
| Reconciler.FirstCycle | examples/jobtree/sync.py:160-226 | first call, one job without dependencies, nothing observed: no phases, counter 1, one pod `MyName-A` with policy `Never` |
| Reconciler.DependencySucceeded | examples/jobtree/sync.py:160-226 | `A` recorded `Succeeded`, `B` waiting on it: only `B` gets a pod, the phases are unchanged, and the counter goes from 4 to 5 |
| Reconciler.DependencyDisappeared | examples/jobtree/sync.py:160-226 | `A` recorded `Running` and vanished: it becomes `Disappeared`, and `C`, which waits for `A` to succeed, gets a pod with the template's restart policy |

## Left out

- The HTTP server (`JobTreeRequestHandler.do_POST`, `main`) and the JSON (de)serialisation of requests and responses are network I/O.
- The `print` logging, the `datetime.utcnow()` timestamp and `noquotes` are output only and never influence the result.
- Turning the request document into the typed `Request` record is not modelled. The reconciler reads its fields through `getpath` in the source, and `Document.GetPath` models that accessor on its own. One consequence: the `KeyError` raised for a missing `parent:metadata:name`, a pod without `status.phase` or a container without `name` is not modelled. Every request here has those fields.
- Pod dictionary order: `children:Pod.v1` is given as a sequence in the dictionary's iteration order. `DistinctPods` records that its keys are distinct.
- The `str(...)` coercions in `calculate_jobs` do nothing on the string names of this model.
- `calculator_func` is a parameter in the source. The model fixes it to `calculate_jobs`, which is what the request handler passes.
- JSON numbers are unbounded integers. Python's `int` is unbounded too, so the counter never wraps.
- Python's exception classes are not kept apart. Indexing a value that is not a dictionary raises `TypeError` without a default and `AttributeError` with one; both become `NotAnObject` naming the key.
- `Merge.MergedShape` only holds for lists without duplicate job names (and distinct pods), because with a duplicated name a write can be hidden (`PhaseStore.DuplicateHidesWrite`). The same condition is required by `Merge.MergedPhaseOf`, `Merge.MergeKeepsPositions`, `Disappearance.DisappearedUpToMarks`, `Disappearance.DisappearedPointwise`, `Disappearance.DisappearanceProperties`, `Disappearance.DisappearedPhaseOf`, `Reconciler.CyclePhaseOf`, `Reconciler.CycleDisappearance`, `Reconciler.CycleSettles`, `Reconciler.CyclePhasesStable` and `Reconciler.CycleIdempotent`. A cycle given a list with unique names returns one with unique names (the first `ensures` of `Reconciler.CyclePhaseOf`). So a controller that starts from an empty list, or from any list with unique names, keeps all of its lists unique. Sticky success needs no such condition (`Merge.MergeKeepsSucceeded`, `Disappearance.DisappearedKeepsSucceeded`, `Reconciler.CycleKeepsSucceeded`).
- `Disappearance.Visit`, `Disappearance.DisappearedUpTo` and `Disappearance.Disappeared` state only that the length is kept. What they compute is stated by `Disappearance.DisappearedUpToMarks` and `Disappearance.DisappearanceProperties`.
