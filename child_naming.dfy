/**
 * Child pod naming: a child pod of parent `P` is named `P-<job>`
 * (examples/jobtree/sync.py:166-173, 181-182).
 */
module ChildNaming {

  /** `'{}-'.format(parent_name)`. */
  function NamePrefix(parent: string): string {
    parent + "-"
  }

  /** `is_my_child`: the pod name starts with the prefix. */
  predicate IsMyChild(prefix: string, podName: string) {
    prefix <= podName
  }

  /** `extract_name`: the pod name without its first `len(prefix)` characters (empty if shorter). */
  function ExtractName(prefix: string, podName: string): string {
    if |prefix| <= |podName| then podName[|prefix|..] else ""
  }

  /** The name `new_pod` gives the pod of a container. */
  function PodName(prefix: string, containerName: string): string {
    prefix + containerName
  }

  /** A generated pod name is recognised as a child, and gives back the container name. */
  lemma PodNameRoundTrip(prefix: string, containerName: string)
    ensures IsMyChild(prefix, PodName(prefix, containerName))
    ensures ExtractName(prefix, PodName(prefix, containerName)) == containerName
  {
    var name := PodName(prefix, containerName);
    assert name[..|prefix|] == prefix;
    assert name[|prefix|..] == containerName;
  }

  /** A child pod's name is the prefix followed by the job name extracted from it. */
  lemma ChildNameRebuilds(prefix: string, podName: string)
    requires IsMyChild(prefix, podName)
    ensures PodName(prefix, ExtractName(prefix, podName)) == podName
  {
    assert podName == podName[..|prefix|] + podName[|prefix|..];
  }
}
