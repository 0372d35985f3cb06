/** Live tolerated pods as a cluster snapshot lists them, and the view of one pod
    that the planners read (app/k8s_client.py, app/main.py, app/controller.py). */
module Pods {
  import opened Sums
  import opened Placement

  /** Allocatable GPUs per class, per node. */
  type Inventory = map<string, map<string, int>>

  datatype ToleratedPod = ToleratedPod(
    uid: string,
    namespace: string,
    name: string,
    gpuClass: string,
    gpuCount: nat,
    reservationId: Option<int>,
    phase: string,
    scheduledFalse: bool,
    terminating: bool,
    groupLabel: Option<string>,
    nodeName: Option<string>,
    placement: Option<NodePlacement>,
    warningAt: Option<int>)

  datatype PodView = PodView(
    uid: string,
    namespace: string,
    gpuClass: string,
    gpuCount: nat,
    reservationId: Option<int>,
    nodeResident: bool,
    terminating: bool,
    groupLabel: Option<string>,
    nodeName: Option<string>,
    warningAt: Option<int>,
    nodeExcluded: bool)

  predicate Resident(p: ToleratedPod) {
    p.phase == "Running" || (p.phase == "Pending" && !p.scheduledFalse)
  }

  function NodesOf(inventory: Inventory, cls: string): map<string, int> {
    if cls in inventory then inventory[cls] else map[]
  }

  /** The planners' view of a pod, marked against the inventory when there is one. */
  function ViewOf(p: ToleratedPod, inventory: Option<Inventory>): PodView {
    PodView(
      p.uid, p.namespace, p.gpuClass, p.gpuCount, p.reservationId,
      Resident(p), p.terminating, p.groupLabel, p.nodeName, p.warningAt,
      inventory.Some? && p.nodeName.Some? && p.nodeName.value !in NodesOf(inventory.value, p.gpuClass))
  }

  ghost predicate DistinctUids(pods: seq<PodView>) {
    forall i, j :: 0 <= i < j < |pods| ==> pods[i].uid != pods[j].uid
  }
}
