/** Fork mode: the labels and the copy of the target pod, and the lookup of the target container. */
module ForkPod {
  import opened Common

  type Labels = map<string, string>

  /** A container, with the parts the copy does not touch kept as an opaque text. */
  datatype Container = Container(
    name: string, command: seq<string>, args: seq<string>, liveness: Option<string>, readiness: Option<string>,
    rest: string)

  datatype Meta = Meta(
    name: string, namespace: string, labels: Labels, resourceVersion: string, uid: string, selfLink: string,
    created: int, owners: seq<string>, rest: string)

  datatype RestartPolicy = Always | OnFailure | Never

  class Pod {
    var meta: Meta
    var containers: array<Container>
    var restartPolicy: RestartPolicy
    var spec: string                // everything else in the spec, init containers included
    var typeMeta: Option<string>
    var status: Option<string>

    /** A pod literal with the given metadata and spec: the other parts are empty. */
    constructor (meta: Meta, containers: array<Container>, restartPolicy: RestartPolicy, spec: string)
      ensures this.meta == meta && this.containers == containers
      ensures this.restartPolicy == restartPolicy && this.spec == spec
      ensures typeMeta == None && status == None
    {
      this.meta, this.containers, this.restartPolicy, this.spec := meta, containers, restartPolicy, spec;
      typeMeta, status := None, None;
    }
  }

  /** The labels whose keys are to be retained; the map is visited in no particular order. */
  method BuildForkPodLabels(retain: seq<string>, labels: Labels) returns (podLabels: Labels)
    ensures podLabels == map k | k in labels && k in retain :: labels[k]
  {
    podLabels := map[];
    for i := 0 to |retain|
      invariant podLabels == map k | k in labels && k in retain[..i] :: labels[k]
    {
      var keys := labels.Keys;
      while keys != {}
        invariant keys <= labels.Keys
        invariant forall k :: k in podLabels <==> k in labels && (k in retain[..i] || (k == retain[i] && k !in keys))
        invariant forall k :: k in podLabels ==> podLabels[k] == labels[k]
        decreases keys
      {
        var k :| k in keys;
        if retain[i] == k {
          podLabels := podLabels[k := labels[k]];
        }
        keys := keys - {k};
      }
      assert forall k :: k in retain[..i + 1] <==> k in retain[..i] || k == retain[i];
    }
    assert retain[..|retain|] == retain;
  }

  /** A container of the copy: no probes, and the target sleeps for ever. */
  function Stripped(c: Container, target: string): Container {
    var bare := c.(liveness := None, readiness := None);
    if c.name == target then bare.(command := ["sh", "-c", "--"], args := ["while true; do sleep 30; done;"])
    else bare
  }

  /** At most 34 characters of the original name survive. */
  function ForkName(name: string, xid: string): (r: string)
    ensures r == name[..Min(|name|, 34)] + ("-" + xid + "-debug")
    ensures |r| == Min(|name|, 34) + |xid| + 7
    ensures |xid| == 20 ==> |r| <= 61
  {
    var kept := if |name| <= 34 then name else name[..34];
    assert kept + "-" + xid + "-debug" == kept + ("-" + xid + "-debug");
    kept + "-" + xid + "-debug"
  }

  /**
   The copy differs from the original exactly in its name, labels, restart
   policy, identity metadata, probes, the target's command and arguments, and
   in having neither type metadata nor status; the original, its containers
   included, is left alone.
   */
  method CopyAndStripPod(pod: Pod, target: string, podLabels: Labels, xid: string) returns (copied: Pod)
    ensures fresh(copied) && fresh(copied.containers)
    ensures copied.meta == pod.meta.(name := ForkName(pod.meta.name, xid), labels := podLabels, resourceVersion := "",
                                     uid := "", selfLink := "", created := 0, owners := [])
    ensures copied.spec == pod.spec && copied.restartPolicy == Never
    ensures copied.typeMeta == None && copied.status == None
    ensures copied.containers.Length == pod.containers.Length
    ensures forall i :: 0 <= i < pod.containers.Length ==> copied.containers[i] == Stripped(pod.containers[i], target)
    ensures forall i :: 0 <= i < pod.containers.Length ==>
              var c, was := copied.containers[i], pod.containers[i];
              && c.liveness.None? && c.readiness.None? && c.name == was.name && c.rest == was.rest
              && (if was.name == target
                  then c.command == ["sh", "-c", "--"] && c.args == ["while true; do sleep 30; done;"]
                  else c.command == was.command && c.args == was.args)
    ensures copied.meta.name == pod.meta.name[..Min(|pod.meta.name|, 34)] + ("-" + xid + "-debug")
  {
    var source := pod.containers;
    var containers := new Container[source.Length](i requires 0 <= i < source.Length reads source => source[i]);
    copied := new Pod(pod.meta, containers, pod.restartPolicy, pod.spec);
    copied.meta := copied.meta.(name := ForkName(pod.meta.name, xid));
    copied.meta := copied.meta.(labels := podLabels);
    copied.restartPolicy := Never;
    for i := 0 to containers.Length
      invariant copied.containers == containers
      invariant copied.meta == pod.meta.(name := ForkName(pod.meta.name, xid), labels := podLabels)
      invariant copied.spec == pod.spec && copied.restartPolicy == Never
      invariant copied.typeMeta == None && copied.status == None
      invariant forall j :: 0 <= j < i ==> containers[j] == Stripped(source[j], target)
      invariant forall j :: i <= j < containers.Length ==> containers[j] == source[j]
    {
      var c := containers[i];
      containers[i] := containers[i].(liveness := None);
      containers[i] := containers[i].(readiness := None);
      if c.name == target {
        containers[i] := containers[i].(command := ["sh", "-c", "--"]);
        containers[i] := containers[i].(args := ["while true; do sleep 30; done;"]);
      }
    }
    copied.meta := copied.meta.(resourceVersion := "", uid := "", selfLink := "", created := 0, owners := []);
  }

  datatype ContainerStatus = ContainerStatus(name: string, running: bool, id: string)

  datatype Lookup = Found(id: string) | NotRunning(init: bool) | NotFound

  /** s is the first status with the given name. */
  ghost predicate IsFirst(statuses: seq<ContainerStatus>, name: string, i: nat) {
    i < |statuses| && statuses[i].name == name && forall j :: 0 <= j < i ==> statuses[j].name != name
  }

  predicate Named(statuses: seq<ContainerStatus>, name: string) {
    exists i :: 0 <= i < |statuses| && statuses[i].name == name
  }

  /** A name that occurs has exactly one first status. */
  lemma {:induction false} FirstFields(statuses: seq<ContainerStatus>, name: string) returns (i: nat)
    requires exists j :: 0 <= j < |statuses| && statuses[j].name == name
    ensures i < |statuses| && statuses[i].name == name && forall j :: 0 <= j < i ==> statuses[j].name != name
    ensures Named(statuses, name) && IsFirst(statuses, name, i)
    ensures forall j: nat :: IsFirst(statuses, name, j) ==> j == i
  {
    if statuses[0].name == name {
      i := 0;
    } else {
      var j :| 0 <= j < |statuses| && statuses[j].name == name;
      assert statuses[1..][j - 1].name == name;
      i := FirstFields(statuses[1..], name);
      assert forall n :: 0 <= n < i ==> statuses[1..][n] == statuses[n + 1];
      i := i + 1;
    }
  }

  /** Init containers are consulted only if no ordinary container has the name; in either list the first one decides. */
  method GetContainerIDByName(statuses: seq<ContainerStatus>, initStatuses: seq<ContainerStatus>, name: string)
    returns (r: Lookup)
    ensures r == NotFound <==> !Named(statuses, name) && !Named(initStatuses, name)
    ensures forall i: nat :: IsFirst(statuses, name, i) ==>
              r == if statuses[i].running then Found(statuses[i].id) else NotRunning(false)
    ensures forall i: nat :: !Named(statuses, name) && IsFirst(initStatuses, name, i) ==>
              r == if initStatuses[i].running then Found(initStatuses[i].id) else NotRunning(true)
  {
    for i := 0 to |statuses|
      invariant forall j :: 0 <= j < i ==> statuses[j].name != name
    {
      if statuses[i].name != name {
        continue;
      }
      if !statuses[i].running {
        return NotRunning(false);
      }
      return Found(statuses[i].id);
    }
    for i := 0 to |initStatuses|
      invariant forall j :: 0 <= j < i ==> initStatuses[j].name != name
    {
      if initStatuses[i].name != name {
        continue;
      }
      if !initStatuses[i].running {
        return NotRunning(true);
      }
      return Found(initStatuses[i].id);
    }
    return NotFound;
  }
}
