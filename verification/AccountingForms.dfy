/** The three ways GPUs in use are counted (pod records per node, pod views per
    node, pod views per class), computed from one snapshot and compared
    (app/controller.py, app/main.py). */
module AccountingForms {
  import opened Sums
  import opened Placement
  import opened Pods
  import opened NodeAccounting
  import Preemption

  // -- what one pod holds ------------------------------------------------------------

  predicate HasNode(nodeName: Option<string>) {
    nodeName.Some? && nodeName.value != ""
  }

  /** A pod's record, or `None` when it holds nothing. */
  function RecordOf(p: ToleratedPod): Option<GpuPod> {
    if p.terminating || p.gpuCount < 1 || p.gpuClass == "" then None
    else if HasNode(p.nodeName) && !Resident(p) then None
    else if !HasNode(p.nodeName) && p.phase != "Pending" then None
    else
      Some(GpuPod(p.namespace, p.name, p.gpuClass, p.gpuCount,
                  if HasNode(p.nodeName) then p.nodeName else None, p.placement, p.reservationId))
  }

  function RecordsOf(pods: seq<ToleratedPod>): Records {
    if pods == [] then map[] else
    var last := pods[|pods| - 1];
    var rest := RecordsOf(pods[..|pods| - 1]);
    if RecordOf(last).Some? then rest[last.uid := RecordOf(last).value] else rest
  }

  function Views(pods: seq<ToleratedPod>, inventory: Option<Inventory>): seq<PodView> {
    if pods == [] then [] else
    Views(pods[..|pods| - 1], inventory) + [ViewOf(pods[|pods| - 1], inventory)]
  }

  ghost predicate OnePerUid(pods: seq<ToleratedPod>) {
    forall i, j :: 0 <= i < j < |pods| ==> pods[i].uid != pods[j].uid
  }

  lemma {:induction false} RecordsComeFromPods(pods: seq<ToleratedPod>, uid: string)
    requires uid in RecordsOf(pods)
    ensures exists i :: 0 <= i < |pods| && pods[i].uid == uid
  {
    var rest := pods[..|pods| - 1];
    if pods[|pods| - 1].uid != uid {
      RecordsComeFromPods(rest, uid);
      var i :| 0 <= i < |rest| && rest[i].uid == uid;
      assert pods[i].uid == uid;
    }
  }

  lemma {:induction false} RecordsAt(pods: seq<ToleratedPod>, i: nat)
    requires OnePerUid(pods) && i < |pods|
    ensures Find(RecordsOf(pods), pods[i].uid) == RecordOf(pods[i])
  {
    var rest, last := pods[..|pods| - 1], pods[|pods| - 1];
    if i < |rest| {
      RecordsAt(rest, i);
    } else if last.uid in RecordsOf(rest) {
      RecordsComeFromPods(rest, last.uid);
    }
  }

  /** Which pods are on record, field by field. A pod on a node is from when it is scheduled
      until it ends; one on no node is a claim while it is pending; a terminating pod, or
      one without a class or GPUs, holds nothing. */
  lemma RecordedExactly(pods: seq<ToleratedPod>, p: ToleratedPod)
    requires OnePerUid(pods) && p in pods
    ensures var bound := p.nodeName.Some? && p.nodeName.value != "";
      var record := GpuPod(
        p.namespace, p.name, p.gpuClass, p.gpuCount, if bound then p.nodeName else None, p.placement, p.reservationId);
      && (p.uid in RecordsOf(pods) <==>
            && !p.terminating && p.gpuCount >= 1 && p.gpuClass != ""
            && ((p.phase == "Pending" && (bound ==> !p.scheduledFalse)) || (p.phase == "Running" && bound)))
      && (p.uid in RecordsOf(pods) ==> RecordsOf(pods)[p.uid] == record)
  {
    var i :| 0 <= i < |pods| && pods[i] == p;
    RecordsAt(pods, i);
  }

  /** And what the planners see of a pod: that it holds its node while it runs or waits
      there, and that its node is not counted when an inventory of its class lacks it. */
  lemma {:induction false} ViewedExactly(pods: seq<ToleratedPod>, inventory: Option<Inventory>, i: nat)
    requires i < |pods|
    ensures |Views(pods, inventory)| == |pods|
    ensures var p := pods[i];
      Views(pods, inventory)[i] == PodView(
        p.uid, p.namespace, p.gpuClass, p.gpuCount, p.reservationId,
        p.phase == "Running" || (p.phase == "Pending" && !p.scheduledFalse), p.terminating, p.groupLabel, p.nodeName,
        p.warningAt,
        && inventory.Some? && p.nodeName.Some?
        && (p.gpuClass in inventory.value ==> p.nodeName.value !in inventory.value[p.gpuClass]))
  {
    var rest := pods[..|pods| - 1];
    if rest != [] {
      ViewedExactly(rest, inventory, if i < |rest| then i else 0);
    }
  }

  // -- free GPUs per node, from views -----------------------------------------------------

  predicate HoldsOn(v: PodView, cls: string, n: string) {
    HasNode(v.nodeName) && v.nodeResident && !v.terminating && v.gpuClass == cls && v.nodeName == Some(n)
  }

  function InUse(cls: string, n: string): PodView -> int {
    (v: PodView) => if HoldsOn(v, cls, n) then v.gpuCount else 0
  }

  function ViewsFree(nodes: map<string, int>, views: seq<PodView>, cls: string): map<string, int> {
    map n | n in nodes :: nodes[n] - Sum(views, InUse(cls, n))
  }

  function FreeByNode(inventory: Inventory, views: seq<PodView>): FreeMap {
    map cls | cls in inventory :: ViewsFree(inventory[cls], views, cls)
  }

  function ChargeView(free: FreeMap, v: PodView): FreeMap {
    if HasNode(v.nodeName) && v.nodeResident && !v.terminating && v.gpuClass in free &&
      v.nodeName.value in free[v.gpuClass] then
      free[v.gpuClass := free[v.gpuClass][v.nodeName.value := free[v.gpuClass][v.nodeName.value] - v.gpuCount]]
    else free
  }

  lemma OneMoreView(nodes: map<string, int>, views: seq<PodView>, v: PodView, cls: string)
    ensures forall n <- nodes :: ViewsFree(nodes, views + [v], cls)[n]
              == ViewsFree(nodes, views, cls)[n] - if HoldsOn(v, cls, n) then v.gpuCount else 0
  {
    forall n | n in nodes ensures Sum(views + [v], InUse(cls, n)) == Sum(views, InUse(cls, n)) + InUse(cls, n)(v) {
      SumConcat(views, [v], InUse(cls, n));
    }
  }

  lemma ChargeViewClass(inventory: Inventory, views: seq<PodView>, v: PodView, cls: string)
    requires cls in inventory
    ensures FreeByNode(inventory, views + [v])[cls] == ChargeView(FreeByNode(inventory, views), v)[cls]
  {
    var before, after := ViewsFree(inventory[cls], views, cls), ViewsFree(inventory[cls], views + [v], cls);
    OneMoreView(inventory[cls], views, v, cls);
    if HasNode(v.nodeName) && v.nodeResident && !v.terminating && v.gpuClass == cls &&
      v.nodeName.value in inventory[cls] {
      Lowered(before, after, v.nodeName.value, v.gpuCount);
    } else {
      assert after == before;
    }
  }

  lemma ChargeOneView(inventory: Inventory, views: seq<PodView>, v: PodView)
    ensures FreeByNode(inventory, views + [v]) == ChargeView(FreeByNode(inventory, views), v)
  {
    forall cls | cls in inventory
      ensures FreeByNode(inventory, views + [v])[cls] == ChargeView(FreeByNode(inventory, views), v)[cls]
    {
      ChargeViewClass(inventory, views, v, cls);
    }
  }

  lemma NoViews(inventory: Inventory)
    ensures FreeByNode(inventory, []) == inventory
  {
    forall cls | cls in inventory ensures ViewsFree(inventory[cls], [], cls) == inventory[cls] {
    }
  }

  method FreeGpusByNodeClass(inventory: Inventory, views: seq<PodView>) returns (free: FreeMap)
    ensures free == FreeByNode(inventory, views)
  {
    free := inventory;
    NoViews(inventory);
    for i := 0 to |views|
      invariant free == FreeByNode(inventory, views[..i])
    {
      var v := views[i];
      ChargeOneView(inventory, views[..i], v);
      assert views[..i + 1] == views[..i] + [v];
      if !HasNode(v.nodeName) || !v.nodeResident || v.terminating {
        continue;
      }
      if v.gpuClass in free && v.nodeName.value in free[v.gpuClass] {
        var perNode := free[v.gpuClass];
        free := free[v.gpuClass := perNode[v.nodeName.value := perNode[v.nodeName.value] - v.gpuCount]];
      }
    }
    assert views[..|views|] == views;
  }

  // -- records and views agree ---------------------------------------------------------------

  lemma {:induction false} SameUse(pods: seq<ToleratedPod>, marks: Option<Inventory>, cls: string, n: string)
    requires OnePerUid(pods) && cls != ""
    ensures UsedOn(RecordsOf(pods), RecordsOf(pods).Keys, cls, n) == Sum(Views(pods, marks), InUse(cls, n))
  {
    if pods != [] {
      var rest, last := pods[..|pods| - 1], pods[|pods| - 1];
      SameUse(rest, marks, cls, n);
      SumConcat(Views(rest, marks), [ViewOf(last, marks)], InUse(cls, n));
      if last.uid in RecordsOf(rest) {
        RecordsComeFromPods(rest, last.uid);
        assert false;
      }
      LastUse(RecordsOf(rest), last, marks, cls, n);
    }
  }

  lemma LastUse(records: Records, p: ToleratedPod, marks: Option<Inventory>, cls: string, n: string)
    requires p.uid !in records && cls != ""
    ensures var next := if RecordOf(p).Some? then records[p.uid := RecordOf(p).value] else records;
      UsedOn(next, next.Keys, cls, n) == UsedOn(records, records.Keys, cls, n) + InUse(cls, n)(ViewOf(p, marks))
  {
    UsedAfter(records, p.uid, RecordOf(p), cls, n);
    assert records - {p.uid} == records;
  }

  /** For the same pods, free GPUs per node are the same number whether counted
      from the live records or from the planners' views, however marked. */
  lemma RecordsAgreeWithViews(inventory: Inventory, pods: seq<ToleratedPod>, marks: Option<Inventory>)
    requires OnePerUid(pods) && "" !in inventory
    ensures NodeFree(inventory, RecordsOf(pods)) == FreeByNode(inventory, Views(pods, marks))
  {
    forall cls | cls in inventory
      ensures NodeFree(inventory, RecordsOf(pods))[cls] == FreeByNode(inventory, Views(pods, marks))[cls]
    {
      AgreeOnClass(inventory[cls], pods, marks, cls);
    }
  }

  lemma AgreeOnClass(nodes: map<string, int>, pods: seq<ToleratedPod>, marks: Option<Inventory>, cls: string)
    requires OnePerUid(pods) && cls != ""
    ensures NodesLess(nodes, RecordsOf(pods), RecordsOf(pods).Keys, cls) == ViewsFree(nodes, Views(pods, marks), cls)
  {
    forall n | n in nodes
      ensures UsedOn(RecordsOf(pods), RecordsOf(pods).Keys, cls, n) == Sum(Views(pods, marks), InUse(cls, n))
    {
      SameUse(pods, marks, cls, n);
    }
    SameMap(NodesLess(nodes, RecordsOf(pods), RecordsOf(pods).Keys, cls), ViewsFree(nodes, Views(pods, marks), cls));
  }

  // -- nodes and classes agree ------------------------------------------------------------------

  ghost function At(nodes: map<string, int>): string -> int {
    n => if n in nodes then nodes[n] else 0
  }

  /** Total GPUs per class. */
  ghost function Totals(inventory: Inventory): map<string, int> {
    map cls | cls in inventory :: SumKeys(inventory[cls].Keys, At(inventory[cls]))
  }

  /** GPUs of a class that a scheduled, live pod holds without naming a node. */
  function Nowhere(cls: string): ToleratedPod -> int {
    (p: ToleratedPod) =>
      if Resident(p) && !p.terminating && p.nodeName.None? && p.gpuClass == cls then p.gpuCount else 0
  }

  lemma OneMoreTotal(nodes: map<string, int>, views: seq<PodView>, v: PodView, cls: string)
    ensures SumKeys(nodes.Keys, At(ViewsFree(nodes, views + [v], cls)))
         == SumKeys(nodes.Keys, At(ViewsFree(nodes, views, cls)))
            - if HasNode(v.nodeName) && HoldsOn(v, cls, v.nodeName.value) && v.nodeName.value in nodes
              then v.gpuCount else 0
  {
    var before, after := ViewsFree(nodes, views, cls), ViewsFree(nodes, views + [v], cls);
    OneMoreView(nodes, views, v, cls);
    if HasNode(v.nodeName) && HoldsOn(v, cls, v.nodeName.value) && v.nodeName.value in nodes {
      var n := v.nodeName.value;
      SumKeysRemove(nodes.Keys, n, At(before));
      SumKeysRemove(nodes.Keys, n, At(after));
      SumKeysSame(nodes.Keys - {n}, At(before), At(after));
    } else {
      SumKeysSame(nodes.Keys, At(before), At(after));
    }
  }

  lemma {:induction false} NodesAddUp(inventory: Inventory, pods: seq<ToleratedPod>, cls: string)
    requires cls in inventory && "" !in inventory[cls]
    ensures SumKeys(inventory[cls].Keys, At(ViewsFree(inventory[cls], Views(pods, Some(inventory)), cls)))
         == Totals(inventory)[cls] - Sum(Views(pods, Some(inventory)), Preemption.Occupies(cls))
            + Sum(pods, Nowhere(cls))
  {
    if pods == [] {
      assert ViewsFree(inventory[cls], [], cls) == inventory[cls];
    } else {
      var rest, last := pods[..|pods| - 1], pods[|pods| - 1];
      NodesAddUp(inventory, rest, cls);
      OneMoreTotal(inventory[cls], Views(rest, Some(inventory)), ViewOf(last, Some(inventory)), cls);
      SumConcat(Views(rest, Some(inventory)), [ViewOf(last, Some(inventory))], Preemption.Occupies(cls));
      assert pods == rest + [last];
      SumConcat(rest, [last], Nowhere(cls));
    }
  }

  /** Summed over its nodes, a class's free GPUs are what the per-class count
      gives, plus the GPUs of resident pods that are on no node at all. */
  lemma NodesAgreeWithClasses(inventory: Inventory, pods: seq<ToleratedPod>, cls: string)
    requires OnePerUid(pods) && cls in inventory
    requires "" !in inventory && "" !in inventory[cls]
    ensures SumKeys(inventory[cls].Keys, At(NodeFree(inventory, RecordsOf(pods))[cls]))
         == Preemption.Free(Totals(inventory), Views(pods, Some(inventory)))[cls] + Sum(pods, Nowhere(cls))
  {
    RecordsAgreeWithViews(inventory, pods, Some(inventory));
    assert NodeFree(inventory, RecordsOf(pods))[cls] == ViewsFree(inventory[cls], Views(pods, Some(inventory)), cls);
    NodesAddUp(inventory, pods, cls);
  }
}
