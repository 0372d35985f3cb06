/** Per-node GPU accounting: the live pod records, the log of their changes, and
    the two free maps kept incrementally from them (app/controller.py). */
module NodeAccounting {
  import opened Sums
  import opened Placement
  import opened Pods

  datatype GpuPod = GpuPod(
    namespace: string,
    name: string,
    gpuClass: string,
    gpuCount: nat,
    nodeName: Option<string>,
    placement: Option<NodePlacement>,
    reservationId: Option<int>)

  type Records = map<string, GpuPod>
  type FreeMap = map<string, map<string, int>>

  function Find<V>(m: map<string, V>, uid: string): Option<V> {
    if uid in m then Some(m[uid]) else None
  }

  function Stored<V>(m: map<string, V>, uid: string, v: Option<V>): map<string, V> {
    if v.Some? then m[uid := v.value] else m - {uid}
  }

  // -- free GPUs per node, recomputed ------------------------------------------------

  ghost function OnNode(pods: Records, cls: string, n: string): string -> int {
    uid => if uid in pods && pods[uid].gpuClass == cls && pods[uid].nodeName == Some(n) then pods[uid].gpuCount else 0
  }

  /** GPUs of a class the counted pods hold on a node. */
  ghost function UsedOn(pods: Records, counted: set<string>, cls: string, n: string): int {
    SumKeys(counted, OnNode(pods, cls, n))
  }

  ghost function NodesLess(nodes: map<string, int>, pods: Records, counted: set<string>, cls: string)
    : map<string, int>
  {
    map n | n in nodes :: nodes[n] - UsedOn(pods, counted, cls, n)
  }

  lemma SameNodes(
    nodes: map<string, int>, pods: Records, counted: set<string>, others: Records, theirs: set<string>, cls: string)
    requires forall n <- nodes :: UsedOn(pods, counted, cls, n) == UsedOn(others, theirs, cls, n)
    ensures NodesLess(nodes, pods, counted, cls) == NodesLess(nodes, others, theirs, cls)
  {
    SameMap(NodesLess(nodes, pods, counted, cls), NodesLess(nodes, others, theirs, cls));
  }

  lemma SameMap(a: map<string, int>, b: map<string, int>)
    requires a.Keys == b.Keys && forall n <- a :: a[n] == b[n]
    ensures a == b
  {
  }

  /** Allocatable minus the pods bound there, for every node of every class listed. */
  ghost function NodeFree(inventory: Inventory, pods: Records): FreeMap {
    map cls | cls in inventory :: NodesLess(inventory[cls], pods, pods.Keys, cls)
  }

  ghost function LessSoFar(inventory: Inventory, pods: Records, counted: set<string>): FreeMap {
    map cls | cls in inventory :: NodesLess(inventory[cls], pods, counted, cls)
  }

  function ChargeNode(nodes: map<string, int>, p: GpuPod): map<string, int> {
    if p.nodeName.Some? && p.nodeName.value in nodes then
      nodes[p.nodeName.value := nodes[p.nodeName.value] - p.gpuCount]
    else nodes
  }

  ghost predicate IsBoundTo(p: GpuPod, cls: string, n: string) {
    p.gpuClass == cls && p.nodeName == Some(n)
  }

  lemma OneMoreOn(pods: Records, counted: set<string>, uid: string, cls: string, n: string)
    requires uid in pods && uid !in counted
    ensures UsedOn(pods, counted + {uid}, cls, n)
         == UsedOn(pods, counted, cls, n) + if IsBoundTo(pods[uid], cls, n) then pods[uid].gpuCount else 0
  {
    SumKeysInsert(counted, uid, OnNode(pods, cls, n));
  }

  lemma ChargeOneClass(nodes: map<string, int>, pods: Records, counted: set<string>, uid: string, cls: string)
    requires uid in pods && uid !in counted
    ensures NodesLess(nodes, pods, counted + {uid}, cls)
         == if pods[uid].gpuClass == cls then ChargeNode(NodesLess(nodes, pods, counted, cls), pods[uid])
            else NodesLess(nodes, pods, counted, cls)
  {
    var before, after := NodesLess(nodes, pods, counted, cls), NodesLess(nodes, pods, counted + {uid}, cls);
    var p := pods[uid];
    forall n | n in nodes ensures after[n] == before[n] - if IsBoundTo(p, cls, n) then p.gpuCount else 0 {
      OneMoreOn(pods, counted, uid, cls, n);
    }
    if p.gpuClass == cls && p.nodeName.Some? && p.nodeName.value in nodes {
      Lowered(before, after, p.nodeName.value, p.gpuCount);
    } else {
      assert forall n <- nodes :: !IsBoundTo(p, cls, n);
      assert after == before;
    }
  }

  lemma Lowered(before: map<string, int>, after: map<string, int>, n: string, amount: int)
    requires after.Keys == before.Keys && n in before
    requires forall m <- before :: after[m] == before[m] - if m == n then amount else 0
    ensures after == before[n := before[n] - amount]
  {
  }

  /** A record bound to a node listed for its class takes its GPUs off that node;
      a claim, or a node or class not listed, takes nothing. */
  function Charge(free: FreeMap, p: GpuPod): FreeMap {
    if p.gpuClass in free then free[p.gpuClass := ChargeNode(free[p.gpuClass], p)] else free
  }

  lemma ChargeOne(inventory: Inventory, pods: Records, counted: set<string>, uid: string)
    requires uid in pods && uid !in counted
    ensures LessSoFar(inventory, pods, counted + {uid}) == Charge(LessSoFar(inventory, pods, counted), pods[uid])
  {
    forall cls | cls in inventory
      ensures NodesLess(inventory[cls], pods, counted + {uid}, cls)
           == if pods[uid].gpuClass == cls then ChargeNode(NodesLess(inventory[cls], pods, counted, cls), pods[uid])
              else NodesLess(inventory[cls], pods, counted, cls)
    {
      ChargeOneClass(inventory[cls], pods, counted, uid, cls);
    }
  }

  lemma NothingCounted(inventory: Inventory, pods: Records)
    ensures LessSoFar(inventory, pods, {}) == inventory
  {
    forall cls | cls in inventory ensures NodesLess(inventory[cls], pods, {}, cls) == inventory[cls] {
    }
  }

  method NodeFreeFromPods(inventory: Inventory, pods: Records) returns (free: FreeMap)
    ensures free == NodeFree(inventory, pods)
  {
    free := inventory;
    NothingCounted(inventory, pods);
    var todo := pods.Keys;
    while todo != {}
      invariant todo <= pods.Keys
      invariant free == LessSoFar(inventory, pods, pods.Keys - todo)
    {
      var uid :| uid in todo;
      free := Charge(free, pods[uid]);
      NextCounted(inventory, pods, todo, uid);
      todo := todo - {uid};
    }
    assert pods.Keys - {} == pods.Keys;
  }

  lemma NextCounted(inventory: Inventory, pods: Records, todo: set<string>, uid: string)
    requires uid in todo && todo <= pods.Keys
    ensures LessSoFar(inventory, pods, pods.Keys - (todo - {uid}))
         == Charge(LessSoFar(inventory, pods, pods.Keys - todo), pods[uid])
  {
    ChargeOne(inventory, pods, pods.Keys - todo, uid);
    assert pods.Keys - todo + {uid} == pods.Keys - (todo - {uid});
  }

  // -- the largest single-node opening ----------------------------------------------------

  /** `largest` is the most free on one node of those named, 0 when none is. */
  ghost predicate IsLargest(nodes: map<string, int>, names: set<string>, largest: int) {
    && (forall n <- names :: Or0(nodes, n) <= largest)
    && (if names == {} then largest == 0 else exists n <- names :: Or0(nodes, n) == largest)
  }

  function Or0(nodes: map<string, int>, n: string): int {
    if n in nodes then nodes[n] else 0
  }

  method LargestOf(nodes: map<string, int>, names: set<string>) returns (largest: int)
    ensures IsLargest(nodes, names, largest)
  {
    largest := 0;
    var todo := names;
    while todo != {}
      invariant todo <= names
      invariant IsLargest(nodes, names - todo, largest)
    {
      var n :| n in todo;
      if todo == names || largest < Or0(nodes, n) {
        largest := Or0(nodes, n);
      }
      assert names - (todo - {n}) == names - todo + {n};
      todo := todo - {n};
    }
    assert names - {} == names;
  }

  ghost predicate Collapsed(free: FreeMap, largest: map<string, int>) {
    largest.Keys == free.Keys && forall cls <- free :: IsLargest(free[cls], free[cls].Keys, largest[cls])
  }

  // -- the change log -------------------------------------------------------------------------

  datatype Change = Change(uid: string, record: Option<GpuPod>, at: int)

  type ChangeLog = map<string, Change>

  ghost function Replay(base: Records, history: seq<Change>): Records {
    if history == [] then base else
    var last := history[|history| - 1];
    Stored(Replay(base, history[..|history| - 1]), last.uid, last.record)
  }

  /** The changes made at or after an instant, in order. */
  ghost function Since(history: seq<Change>, t: int): seq<Change> {
    if history == [] then [] else
    var last := history[|history| - 1];
    Since(history[..|history| - 1], t) + if t <= last.at then [last] else []
  }

  ghost function Last(history: seq<Change>, uid: string): Option<Change> {
    if history == [] then None
    else if history[|history| - 1].uid == uid then Some(history[|history| - 1])
    else Last(history[..|history| - 1], uid)
  }

  ghost predicate Ordered(history: seq<Change>) {
    forall i, j :: 0 <= i < j < |history| ==> history[i].at <= history[j].at
  }

  /** The log remembers each pod's last change, unless a snapshot taken strictly
      later has replaced it. */
  ghost predicate Remembers(changes: ChangeLog, history: seq<Change>, pruned: Option<int>) {
    && (forall uid <- changes :: Last(history, uid) == Some(changes[uid]))
    && (forall uid :: uid !in changes && Last(history, uid).Some? ==>
      pruned.Some? && Last(history, uid).value.at < pruned.value)
  }

  ghost function Overlay(snapshot: Records, changes: ChangeLog, applied: set<string>, takenAt: int): Records {
    map uid | uid in snapshot.Keys + applied && Overlaid(snapshot, changes, applied, takenAt, uid).Some?
            :: Overlaid(snapshot, changes, applied, takenAt, uid).value
  }

  ghost function Overlaid(snapshot: Records, changes: ChangeLog, applied: set<string>, takenAt: int, uid: string)
    : Option<GpuPod>
  {
    if uid in applied && uid in changes && takenAt <= changes[uid].at then changes[uid].record else Find(snapshot, uid)
  }

  function Pruned(changes: ChangeLog, takenAt: int): ChangeLog {
    map uid | uid in changes && takenAt <= changes[uid].at :: changes[uid]
  }

  lemma {:induction false} LastOfUid(history: seq<Change>, uid: string)
    ensures Last(history, uid).Some? ==> Last(history, uid).value.uid == uid && Last(history, uid).value in history
  {
    if history != [] && history[|history| - 1].uid != uid {
      LastOfUid(history[..|history| - 1], uid);
    }
  }

  lemma {:induction false} ReplayFinds(base: Records, history: seq<Change>, uid: string)
    ensures Find(Replay(base, history), uid)
         == if Last(history, uid).Some? then Last(history, uid).value.record else Find(base, uid)
  {
    if history != [] {
      ReplayFinds(base, history[..|history| - 1], uid);
    }
  }

  lemma {:induction false} SinceLast(history: seq<Change>, t: int, uid: string)
    requires Ordered(history)
    ensures Last(Since(history, t), uid)
         == if Last(history, uid).Some? && t <= Last(history, uid).value.at then Last(history, uid) else None
  {
    if history != [] {
      var rest, last := history[..|history| - 1], history[|history| - 1];
      SinceLast(rest, t, uid);
      var tail := if t <= last.at then [last] else [];
      if t <= last.at {
        assert (Since(rest, t) + [last])[..|Since(rest, t)|] == Since(rest, t);
      } else {
        assert Since(rest, t) + [] == Since(rest, t);
        LastOfUid(rest, uid);
      }
    }
  }

  lemma SameFinds(a: Records, b: Records)
    requires forall uid :: Find(a, uid) == Find(b, uid)
    ensures a == b
  {
    forall uid ensures uid in a <==> uid in b {
      assert Find(a, uid) == Find(b, uid);
    }
    forall uid | uid in a ensures a[uid] == b[uid] {
      assert Find(a, uid) == Find(b, uid);
    }
  }

  /** Laying the remembered changes over any snapshot is replaying on top of it
      every change made since it was taken, in order; and what is pruned is never
      needed by a snapshot taken later. */
  lemma MergeIsReplay(snapshot: Records, changes: ChangeLog, history: seq<Change>, pruned: Option<int>, takenAt: int)
    requires Ordered(history) && Remembers(changes, history, pruned)
    requires pruned.Some? ==> pruned.value <= takenAt
    ensures Overlay(snapshot, changes, changes.Keys, takenAt) == Replay(snapshot, Since(history, takenAt))
    ensures Remembers(Pruned(changes, takenAt), history, Some(takenAt))
  {
    var merged := Overlay(snapshot, changes, changes.Keys, takenAt);
    forall uid ensures Find(merged, uid) == Find(Replay(snapshot, Since(history, takenAt)), uid) {
      SinceLast(history, takenAt, uid);
      ReplayFinds(snapshot, Since(history, takenAt), uid);
    }
    SameFinds(merged, Replay(snapshot, Since(history, takenAt)));
  }

  /** No removal undone, no addition lost: when a snapshot shows some prefix of
      the changes that includes every one made before it was taken, replaying
      the changes since it was taken gives the whole history's outcome. */
  lemma SnapshotMergeExact(base: Records, history: seq<Change>, k: nat, takenAt: int)
    requires Ordered(history) && k <= |history|
    requires forall i :: k <= i < |history| ==> takenAt <= history[i].at
    ensures Replay(Replay(base, history[..k]), Since(history, takenAt)) == Replay(base, history)
  {
    var snapshot := Replay(base, history[..k]);
    forall uid ensures Find(Replay(snapshot, Since(history, takenAt)), uid) == Find(Replay(base, history), uid) {
      ReplayFinds(snapshot, Since(history, takenAt), uid);
      SinceLast(history, takenAt, uid);
      ReplayFinds(base, history[..k], uid);
      ReplayFinds(base, history, uid);
      if Last(history, uid).Some? && Last(history, uid).value.at < takenAt {
        LastInPrefix(history, k, takenAt, uid);
      } else if Last(history, uid).None? {
        LastAbsent(history, k, uid);
      }
    }
    SameFinds(Replay(snapshot, Since(history, takenAt)), Replay(base, history));
  }

  lemma {:induction false} LastInPrefix(history: seq<Change>, k: nat, t: int, uid: string)
    requires k <= |history| && forall i :: k <= i < |history| ==> t <= history[i].at
    requires Last(history, uid).Some? && Last(history, uid).value.at < t
    ensures Last(history[..k], uid) == Last(history, uid)
  {
    if k < |history| {
      var rest := history[..|history| - 1];
      LastInPrefix(rest, k, t, uid);
      assert rest[..k] == history[..k];
    } else {
      assert history[..k] == history;
    }
  }

  lemma {:induction false} LastAbsent(history: seq<Change>, k: nat, uid: string)
    requires k <= |history| && Last(history, uid).None?
    ensures Last(history[..k], uid).None?
  {
    if k < |history| {
      var rest := history[..|history| - 1];
      LastAbsent(rest, k, uid);
      assert rest[..k] == history[..k];
    } else {
      assert history[..k] == history;
    }
  }

  // -- re-deriving some classes ---------------------------------------------------------------

  /** The records a re-derivation of some classes looks at. */
  function OfClasses(pods: Records, targets: set<string>): Records {
    map uid | uid in pods && pods[uid].gpuClass in targets :: pods[uid]
  }

  lemma RestOfPods(nodes: map<string, int>, pods: Records, targets: set<string>, cls: string)
    requires cls in targets
    ensures NodesLess(nodes, OfClasses(pods, targets), OfClasses(pods, targets).Keys, cls)
      == NodesLess(nodes, pods, pods.Keys, cls)
  {
    var kept := OfClasses(pods, targets);
    forall n | n in nodes ensures UsedOn(kept, kept.Keys, cls, n) == UsedOn(pods, pods.Keys, cls, n) {
      KeptPods(pods, kept, pods.Keys, targets, cls, n);
      assert pods.Keys * kept.Keys == kept.Keys;
    }
    SameNodes(nodes, kept, kept.Keys, pods, pods.Keys, cls);
  }

  lemma {:induction false} KeptPods(
    pods: Records, kept: Records, keys: set<string>, targets: set<string>, cls: string, n: string)
    requires keys <= pods.Keys && cls in targets
    requires kept == OfClasses(pods, targets)
    ensures SumKeys(keys * kept.Keys, OnNode(kept, cls, n)) == SumKeys(keys, OnNode(pods, cls, n))
    decreases keys
  {
    if keys == {} {
      assert keys * kept.Keys == {};
    } else {
      var uid :| uid in keys;
      SumKeysRemove(keys, uid, OnNode(pods, cls, n));
      KeptPods(pods, kept, keys - {uid}, targets, cls, n);
      if uid in kept {
        SumKeysRemove(keys * kept.Keys, uid, OnNode(kept, cls, n));
        assert keys * kept.Keys - {uid} == (keys - {uid}) * kept.Keys;
      } else {
        assert keys * kept.Keys == (keys - {uid}) * kept.Keys;
      }
    }
  }

  /** A change of one pod's record leaves the free GPUs of every class that
      neither its old record nor its new one names as they were. */
  lemma UntouchedClass(nodes: map<string, int>, pods: Records, uid: string, record: Option<GpuPod>, cls: string)
    requires uid in pods ==> pods[uid].gpuClass != cls
    requires record.Some? ==> record.value.gpuClass != cls
    ensures NodesLess(nodes, Stored(pods, uid, record), Stored(pods, uid, record).Keys, cls)
      == NodesLess(nodes, pods, pods.Keys, cls)
  {
    var next := Stored(pods, uid, record);
    forall n | n in nodes ensures UsedOn(next, next.Keys, cls, n) == UsedOn(pods, pods.Keys, cls, n) {
      UsedAfter(pods, uid, record, cls, n);
    }
    SameNodes(nodes, next, next.Keys, pods, pods.Keys, cls);
  }

  /** What a change of one pod's record does to the GPUs in use on a node. */
  lemma UsedAfter(pods: Records, uid: string, record: Option<GpuPod>, cls: string, n: string)
    ensures var next := Stored(pods, uid, record);
      UsedOn(next, next.Keys, cls, n)
        == UsedOn(pods, pods.Keys, cls, n) - OnNode(pods, cls, n)(uid) + OnNode(next, cls, n)(uid)
  {
    var next := Stored(pods, uid, record);
    WithAndWithout(next, uid, cls, n);
    WithAndWithout(pods, uid, cls, n);
    assert next.Keys - {uid} == pods.Keys - {uid};
    SumKeysSame(pods.Keys - {uid}, OnNode(next, cls, n), OnNode(pods, cls, n));
  }

  lemma WithAndWithout(pods: Records, uid: string, cls: string, n: string)
    ensures UsedOn(pods, pods.Keys, cls, n)
      == OnNode(pods, cls, n)(uid) + SumKeys(pods.Keys - {uid}, OnNode(pods, cls, n))
  {
    if uid in pods {
      SumKeysRemove(pods.Keys, uid, OnNode(pods, cls, n));
    } else {
      assert pods.Keys - {uid} == pods.Keys;
    }
  }

  // -- the controller's state ------------------------------------------------------------------

  /** The inventory's entries for some classes. */
  function Known(inventory: Inventory, classes: set<string>): Inventory {
    map cls | cls in inventory && cls in classes :: inventory[cls]
  }

  lemma KnownFree(inventory: Inventory, pods: Records, classes: set<string>)
    ensures NodeFree(Known(inventory, classes), OfClasses(pods, Known(inventory, classes).Keys))
         == NodeFree(Known(inventory, classes), pods)
  {
    var targets := Known(inventory, classes);
    forall cls | cls in targets
      ensures NodesLess(targets[cls], OfClasses(pods, targets.Keys), OfClasses(pods, targets.Keys).Keys, cls)
           == NodesLess(targets[cls], pods, pods.Keys, cls)
    {
      RestOfPods(targets[cls], pods, targets.Keys, cls);
    }
  }

  /** Re-deriving the classes a change names is re-deriving all of them. */
  lemma PartialIsWhole(inventory: Inventory, pods: Records, uid: string, record: Option<GpuPod>, classes: set<string>)
    requires uid in pods ==> pods[uid].gpuClass in classes
    requires record.Some? ==> record.value.gpuClass in classes
    ensures NodeFree(inventory, pods) + NodeFree(Known(inventory, classes), Stored(pods, uid, record))
         == NodeFree(inventory, Stored(pods, uid, record))
  {
    var next := Stored(pods, uid, record);
    forall cls | cls in inventory && cls !in classes
      ensures NodesLess(inventory[cls], next, next.Keys, cls) == NodesLess(inventory[cls], pods, pods.Keys, cls)
    {
      UntouchedClass(inventory[cls], pods, uid, record, cls);
    }
  }

  function ClassesOf(previous: Option<GpuPod>, current: Option<GpuPod>): set<string> {
    (if previous.Some? then {previous.value.gpuClass} else {})
    + (if current.Some? then {current.value.gpuClass} else {})
  }

  method LargestNodeFreeByClass(free: FreeMap) returns (largest: map<string, int>)
    ensures Collapsed(free, largest)
  {
    largest := map[];
    var todo := free.Keys;
    while todo != {}
      invariant todo <= free.Keys && largest.Keys == free.Keys - todo
      invariant forall cls <- largest :: IsLargest(free[cls], free[cls].Keys, largest[cls])
    {
      var cls :| cls in todo;
      var opening := LargestOf(free[cls], free[cls].Keys);
      largest := largest[cls := opening];
      todo := todo - {cls};
    }
  }

  ghost predicate Updating(current: FreeMap, start: FreeMap, free: FreeMap, todo: set<string>) {
    current == start + (map cls | cls in free && cls !in todo :: free[cls])
  }

  lemma UpdateOne(current: FreeMap, start: FreeMap, free: FreeMap, todo: set<string>, cls: string)
    requires Updating(current, start, free, todo) && cls in todo && todo <= free.Keys
    ensures Updating(current[cls := free[cls]], start, free, todo - {cls})
  {
  }

  lemma UpdatedAll(current: FreeMap, start: FreeMap, free: FreeMap)
    requires Updating(current, start, free, {})
    ensures current == start + free
  {
    assert free == map cls | cls in free && cls !in {} :: free[cls];
  }

  lemma CollapseOne(free: FreeMap, largest: map<string, int>, cls: string, perNode: map<string, int>, opening: int)
    requires IsLargest(perNode, perNode.Keys, opening)
    ensures Collapsed(free, largest) ==> Collapsed(free[cls := perNode], largest[cls := opening])
  {
  }

  /** Both free maps are what recomputing them from scratch would give. */
  ghost predicate Exact(inventory: Inventory, pods: Records, free: FreeMap, largest: map<string, int>) {
    free == NodeFree(inventory, pods) && Collapsed(free, largest)
  }

  ghost predicate Logged(changes: ChangeLog, history: seq<Change>, pruned: Option<int>) {
    Ordered(history) && Remembers(changes, history, pruned)
  }

  ghost predicate NotBefore(history: seq<Change>, now: int) {
    forall c <- history :: c.at <= now
  }

  class NodeAccounts {
    var inventory: Inventory
    var labels: NodeLabels
    var pods: Records
    var changes: ChangeLog
    var freeByNodeClass: FreeMap
    var freeByClass: map<string, int>
    /** Every recorded change, in order; when the last snapshot was taken; and
        whether the clock and the snapshots have only ever moved forward. */
    ghost var history: seq<Change>
    ghost var pruned: Option<int>
    ghost var regular: bool

    /** The two free maps are what recomputing them from scratch would give. */
    ghost predicate Valid()
      reads this
    {
      && Exact(inventory, pods, freeByNodeClass, freeByClass)
      && (regular ==> Logged(changes, history, pruned))
    }

    constructor ()
      ensures Valid() && regular && history == [] && pruned == None
      ensures inventory == map[] && pods == map[] && labels == map[]
    {
      inventory, labels, pods, changes := map[], map[], map[], map[];
      freeByNodeClass, freeByClass := map[], map[];
      history, pruned, regular := [], None, true;
    }

    method InstallNodeInventory(snapshot: Inventory, nodeLabels: NodeLabels)
      requires Valid()
      modifies `inventory, `labels, `freeByNodeClass, `freeByClass
      ensures Valid() && inventory == snapshot && labels == nodeLabels
    {
      inventory := snapshot;
      labels := nodeLabels;
      freeByNodeClass := NodeFreeFromPods(inventory, pods);
      freeByClass := LargestNodeFreeByClass(freeByNodeClass);
    }

    method DeriveNodeFree(classes: set<string>)
      modifies `freeByNodeClass, `freeByClass
      ensures freeByNodeClass == old(freeByNodeClass) + NodeFree(Known(inventory, classes), pods)
      ensures old(Collapsed(freeByNodeClass, freeByClass)) ==> Collapsed(freeByNodeClass, freeByClass)
    {
      var targets := Known(inventory, classes);
      if targets.Keys == {} {
        assert NodeFree(targets, pods) == map[];
        return;
      }
      var free := NodeFreeFromPods(targets, OfClasses(pods, targets.Keys));
      KnownFree(inventory, pods, classes);
      ghost var start, collapsed := freeByNodeClass, Collapsed(freeByNodeClass, freeByClass);
      var todo := free.Keys;
      while todo != {}
        invariant todo <= free.Keys
        invariant Updating(freeByNodeClass, start, free, todo)
        invariant collapsed ==> Collapsed(freeByNodeClass, freeByClass)
      {
        var cls :| cls in todo;
        var opening := LargestOf(free[cls], free[cls].Keys);
        UpdateOne(freeByNodeClass, start, free, todo, cls);
        CollapseOne(freeByNodeClass, freeByClass, cls, free[cls], opening);
        freeByNodeClass := freeByNodeClass[cls := free[cls]];
        freeByClass := freeByClass[cls := opening];
        todo := todo - {cls};
      }
      UpdatedAll(freeByNodeClass, start, free);
    }

    /** Records what a pod now holds and returns what it held before. */
    method SetGpuPod(uid: string, record: Option<GpuPod>, now: int) returns (previous: Option<GpuPod>)
      requires Valid()
      modifies `pods, `changes, `freeByNodeClass, `freeByClass, `history, `regular
      ensures Valid()
      ensures previous == Find(old(pods), uid) && pods == Stored(old(pods), uid, record)
      ensures history == old(history) + [Change(uid, record, now)]
      ensures changes == old(changes)[uid := Change(uid, record, now)]
      ensures regular == (old(regular) && NotBefore(old(history), now))
    {
      ghost var was, free, largest := pods, freeByNodeClass, freeByClass;
      previous := Find(pods, uid);
      if record.None? {
        pods := pods - {uid};
      } else {
        pods := pods[uid := record.value];
      }
      Remember(Change(uid, record, now));
      if previous != record {
        DeriveNodeFree(ClassesOf(previous, record));
        ExactNext(inventory, was, free, largest, uid, record, freeByNodeClass, freeByClass);
      } else {
        SamePods(was, uid, record);
      }
    }

    /** Every change is remembered until a rebuild no longer needs it. */
    method Remember(change: Change)
      requires regular ==> Logged(changes, history, pruned)
      modifies `changes, `history, `regular
      ensures regular ==> Logged(changes, history, pruned)
      ensures regular == (old(regular) && NotBefore(old(history), change.at))
      ensures changes == old(changes)[change.uid := change] && history == old(history) + [change]
    {
      LoggedNext(changes, history, pruned, change);
      regular := regular && NotBefore(history, change.at);
      changes := changes[change.uid := change];
      history := history + [change];
    }

    /** Replaces the records with a snapshot's, keeping changes it may not show. */
    method RebuildGpuPods(snapshot: Records, takenAt: int)
      requires Valid()
      modifies `pods, `changes, `freeByNodeClass, `freeByClass, `pruned, `regular
      ensures Valid()
      ensures regular == (old(regular) && (old(pruned).Some? ==> old(pruned).value <= takenAt))
      ensures pruned == Some(takenAt)
      ensures pods == Overlay(snapshot, old(changes), old(changes).Keys, takenAt)
      ensures changes == Pruned(old(changes), takenAt)
      ensures regular ==> pods == Replay(snapshot, Since(history, takenAt))
    {
      ghost var log := changes;
      var merged := Reapply(snapshot, takenAt);
      regular := regular && (pruned.Some? ==> pruned.value <= takenAt);
      RegularMerge(regular, snapshot, log, history, pruned, takenAt);
      pruned := Some(takenAt);
      Adopt(merged);
    }

    /** Replaces the records, and re-derives the free maps of every class. */
    method Adopt(merged: Records)
      requires Exact(inventory, pods, freeByNodeClass, freeByClass)
      modifies `pods, `freeByNodeClass, `freeByClass
      ensures pods == merged && Exact(inventory, pods, freeByNodeClass, freeByClass)
    {
      ghost var free := freeByNodeClass;
      pods := merged;
      DeriveNodeFree(inventory.Keys);
      WholeRederived(inventory, free, pods);
    }

    /** Lays the changes a snapshot may not show over it, and forgets the rest. */
    method Reapply(snapshot: Records, takenAt: int) returns (merged: Records)
      modifies `changes
      ensures merged == Overlay(snapshot, old(changes), old(changes).Keys, takenAt)
      ensures changes == Pruned(old(changes), takenAt)
    {
      merged := snapshot;
      var log := changes;
      var todo := changes.Keys;
      while todo != {}
        invariant todo <= log.Keys
        invariant merged == Overlay(snapshot, log, log.Keys - todo, takenAt)
        invariant changes == map uid | uid in log && (uid in todo || takenAt <= log[uid].at) :: log[uid]
      {
        var uid :| uid in todo;
        var change := log[uid];
        OverlayOne(snapshot, log, log.Keys - todo, takenAt, uid);
        assert log.Keys - todo + {uid} == log.Keys - (todo - {uid});
        if change.at < takenAt {
          changes := changes - {uid};
        } else if change.record.None? {
          merged := merged - {uid};
        } else {
          merged := merged[uid := change.record.value];
        }
        todo := todo - {uid};
      }
      assert log.Keys - {} == log.Keys;
    }
  }

  lemma RegularMerge(
    regular: bool, snapshot: Records, changes: ChangeLog, history: seq<Change>, pruned: Option<int>, takenAt: int)
    requires regular ==> Logged(changes, history, pruned) && (pruned.Some? ==> pruned.value <= takenAt)
    ensures regular ==> Logged(Pruned(changes, takenAt), history, Some(takenAt))
    ensures regular ==> Overlay(snapshot, changes, changes.Keys, takenAt) == Replay(snapshot, Since(history, takenAt))
  {
    if regular {
      MergeIsReplay(snapshot, changes, history, pruned, takenAt);
    }
  }

  lemma SamePods(pods: Records, uid: string, record: Option<GpuPod>)
    requires Find(pods, uid) == record
    ensures Stored(pods, uid, record) == pods
  {
  }

  lemma ExactNext(inventory: Inventory, pods: Records, free: FreeMap, largest: map<string, int>,
                  uid: string, record: Option<GpuPod>, free': FreeMap, largest': map<string, int>)
    requires Exact(inventory, pods, free, largest)
    requires free' == free + NodeFree(Known(inventory, ClassesOf(Find(pods, uid), record)), Stored(pods, uid, record))
    requires Collapsed(free', largest')
    ensures Exact(inventory, Stored(pods, uid, record), free', largest')
  {
    PartialIsWhole(inventory, pods, uid, record, ClassesOf(Find(pods, uid), record));
  }

  lemma LoggedNext(changes: ChangeLog, history: seq<Change>, pruned: Option<int>, c: Change)
    ensures Logged(changes, history, pruned) && NotBefore(history, c.at) ==>
      Logged(changes[c.uid := c], history + [c], pruned)
  {
    RemembersNext(changes, history, pruned, c);
  }

  lemma WholeRederived(inventory: Inventory, stale: FreeMap, pods: Records)
    requires stale.Keys == inventory.Keys
    ensures stale + NodeFree(Known(inventory, inventory.Keys), pods) == NodeFree(inventory, pods)
  {
    assert Known(inventory, inventory.Keys) == inventory;
  }

  lemma RemembersNext(changes: ChangeLog, history: seq<Change>, pruned: Option<int>, c: Change)
    ensures Remembers(changes, history, pruned) ==> Remembers(changes[c.uid := c], history + [c], pruned)
    ensures Ordered(history) && NotBefore(history, c.at) ==> Ordered(history + [c])
  {
    assert (history + [c])[..|history|] == history;
  }

  lemma OverlayOne(snapshot: Records, log: ChangeLog, applied: set<string>, takenAt: int, uid: string)
    requires uid in log
    ensures Overlay(snapshot, log, applied + {uid}, takenAt)
         == if log[uid].at < takenAt then Overlay(snapshot, log, applied, takenAt)
            else Stored(Overlay(snapshot, log, applied, takenAt), uid, log[uid].record)
  {
    var left := Overlay(snapshot, log, applied + {uid}, takenAt);
    var right := if log[uid].at < takenAt then Overlay(snapshot, log, applied, takenAt)
                 else Stored(Overlay(snapshot, log, applied, takenAt), uid, log[uid].record);
    forall u ensures Find(left, u) == Find(right, u) {
    }
    SameFinds(left, right);
  }
}
