/** Guard 5: whether an ask could be placed on one node, net of the pods admitted
    but not yet bound, and the re-judging of the asks it holds
    (app/main.py, app/controller.py). */
module NodeFit {
  import opened Sums
  import opened Placement
  import opened NodeAccounting

  datatype Ask = Ask(gpuClass: string, gpus: nat, placement: Option<NodePlacement>, bestEffort: bool)

  type Nodes = map<string, int>

  // -- the nodes an ask or a claim may use ------------------------------------------------

  function Allowed(placement: Option<NodePlacement>, nodes: Option<Nodes>, labels: NodeLabels): Option<set<string>> {
    PlacementNodes(placement, if nodes.Some? then Some(nodes.value.Keys) else None, labels)
  }

  /** The nodes of the class the placement leaves, as far as the labels tell. */
  function Usable(placement: Option<NodePlacement>, nodes: Nodes, labels: NodeLabels): set<string> {
    var allowed := Allowed(placement, Some(nodes), labels);
    if allowed.Some? then allowed.value else nodes.Keys
  }

  lemma UsableIsMayUse(placement: Option<NodePlacement>, nodes: Nodes, labels: NodeLabels)
    requires forall n <- nodes :: n in labels
    ensures Usable(placement, nodes, labels) == set n | n in nodes && MayUse(placement, n, labels)
  {
    NarrowsExactly(placement, Some(nodes.Keys), labels);
  }

  // -- claims ---------------------------------------------------------------------------------

  predicate IsClaim(p: GpuPod, cls: string) {
    p.nodeName.None? && p.gpuClass == cls
  }

  predicate Overlaps(theirs: Option<set<string>>, allowed: Option<set<string>>) {
    if theirs.Some? && allowed.Some? then theirs.value * allowed.value != {}
    else if theirs.Some? then theirs.value != {}
    else if allowed.Some? then allowed.value != {}
    else true
  }

  predicate ClaimsFrom(p: GpuPod, cls: string, nodes: Option<Nodes>, labels: NodeLabels, allowed: Option<set<string>>) {
    IsClaim(p, cls) && Overlaps(Allowed(p.placement, nodes, labels), allowed)
  }

  /** Whose claims an ask is judged against: the unbound pods of the class that could
      land on a node the ask could use. (A class without nodes refuses nobody.) */
  lemma ClaimsExactly(
    p: GpuPod, cls: string, nodes: Nodes, labels: NodeLabels, placement: Option<NodePlacement>)
    ensures ClaimsFrom(p, cls, Some(nodes), labels, Allowed(placement, Some(nodes), labels)) <==>
      && p.nodeName.None? && p.gpuClass == cls
      && (nodes == map[] ||
          exists n :: n in Usable(p.placement, nodes, labels) && n in Usable(placement, nodes, labels))
  {
    var theirs, allowed := Allowed(p.placement, Some(nodes), labels), Allowed(placement, Some(nodes), labels);
    UsableWithin(p.placement, nodes, labels);
    UsableWithin(placement, nodes, labels);
    if theirs.Some? && allowed.Some? {
      HaveInCommon(theirs.value, allowed.value);
    } else if nodes != map[] {
      var n :| n in nodes;
      assert n in nodes.Keys;
    }
  }

  lemma HaveInCommon(a: set<string>, b: set<string>)
    ensures a * b != {} <==> exists n :: n in a && n in b
  {
    if a * b != {} {
      var n :| n in a * b;
    }
    if n :| n in a && n in b {
      assert n in a * b;
    }
  }

  lemma UsableWithin(placement: Option<NodePlacement>, nodes: Nodes, labels: NodeLabels)
    ensures Usable(placement, nodes, labels) <= nodes.Keys
    ensures nodes == map[] ==> Allowed(placement, Some(nodes), labels).None?
  {
    NarrowsExactly(placement, Some(nodes.Keys), labels);
  }

  ghost function ClaimOf(
    pods: Records, cls: string, nodes: Option<Nodes>, labels: NodeLabels, allowed: Option<set<string>>, exclude: string)
    : string -> int
  {
    uid =>
      if uid in pods && uid != exclude && ClaimsFrom(pods[uid], cls, nodes, labels, allowed)
      then pods[uid].gpuCount else 0
  }

  /** GPUs that admitted, unbound pods may take from the allowed nodes. */
  ghost function Claimed(
    pods: Records, cls: string, nodes: Option<Nodes>, labels: NodeLabels, allowed: Option<set<string>>,
    exclude: string): int
  {
    SumKeys(pods.Keys, ClaimOf(pods, cls, nodes, labels, allowed, exclude))
  }

  method NodeClaims(accounts: NodeAccounts, cls: string, allowed: Option<set<string>>, exclude: string)
    returns (total: int)
    ensures total == Claimed(accounts.pods, cls, Find(accounts.freeByNodeClass, cls), accounts.labels, allowed, exclude)
  {
    var nodes, pods := Find(accounts.freeByNodeClass, cls), accounts.pods;
    ghost var term := ClaimOf(pods, cls, nodes, accounts.labels, allowed, exclude);
    total := 0;
    var todo := pods.Keys;
    while todo != {}
      invariant todo <= pods.Keys
      invariant total == SumKeys(pods.Keys - todo, term)
    {
      var uid :| uid in todo;
      var p := pods[uid];
      SumKeysInsert(pods.Keys - todo, uid, term);
      assert pods.Keys - todo + {uid} == pods.Keys - (todo - {uid});
      todo := todo - {uid};
      if uid == exclude || p.nodeName.Some? || p.gpuClass != cls {
        continue;
      }
      var theirs := Allowed(p.placement, nodes, accounts.labels);
      if Overlaps(theirs, allowed) {
        total := total + p.gpuCount;
      }
    }
    assert pods.Keys - {} == pods.Keys;
  }

  // -- the judgment -------------------------------------------------------------------------------

  datatype Fit = Fit(largestFree: int, claimed: int, narrowing: Option<NodePlacement>) {
    predicate Fits(gpus: nat) {
      largestFree - claimed >= gpus
    }
  }

  predicate Applies(ask: Ask, nodes: Option<Nodes>, labels: NodeLabels) {
    Allowed(ask.placement, nodes, labels).Some? || ask.gpus >= 2 || ask.bestEffort
  }

  ghost function ClaimedFrom(ask: Ask, uid: string, nodes: Nodes, labels: NodeLabels, pods: Records): int {
    Claimed(pods, ask.gpuClass, Some(nodes), labels, Allowed(ask.placement, Some(nodes), labels), uid)
  }

  /** Guard 5's reading of an ask: none without data or where it does not apply,
      and otherwise the largest usable opening and the claims on it. */
  ghost predicate IsFit(
    ask: Ask, uid: string, nodes: Option<Nodes>, labels: NodeLabels, pods: Records, fit: Option<Fit>)
  {
    if nodes.None? || !Applies(ask, nodes, labels) then fit.None?
    else
      && fit.Some?
      && IsLargest(nodes.value, Usable(ask.placement, nodes.value, labels), fit.value.largestFree)
      && fit.value.claimed == ClaimedFrom(ask, uid, nodes.value, labels, pods)
      && fit.value.narrowing == if Allowed(ask.placement, nodes, labels).Some? then ask.placement else None
  }

  /** What the judgment amounts to: it fails open, or some usable node has room
      beyond every claim that may land on a usable node. */
  ghost predicate Passes(ask: Ask, uid: string, nodes: Option<Nodes>, labels: NodeLabels, pods: Records) {
    || nodes.None?
    || !Applies(ask, nodes, labels)
    || HasRoom(ask, nodes.value, Usable(ask.placement, nodes.value, labels),
      ClaimedFrom(ask, uid, nodes.value, labels, pods))
  }

  ghost predicate HasRoom(ask: Ask, nodes: Nodes, usable: set<string>, claimed: int) {
    if usable == {} then ask.gpus + claimed <= 0
    else exists n <- usable :: Or0(nodes, n) - claimed >= ask.gpus
  }

  lemma FitsExactly(ask: Ask, uid: string, nodes: Option<Nodes>, labels: NodeLabels, pods: Records, fit: Option<Fit>)
    requires IsFit(ask, uid, nodes, labels, pods, fit)
    ensures (fit.None? || fit.value.Fits(ask.gpus)) <==> Passes(ask, uid, nodes, labels, pods)
  {
  }

  method JudgeFit(accounts: NodeAccounts, uid: string, ask: Ask) returns (fit: Option<Fit>)
    requires accounts.Valid()
    ensures IsFit(ask, uid, Find(accounts.freeByNodeClass, ask.gpuClass), accounts.labels, accounts.pods, fit)
  {
    var nodes := Find(accounts.freeByNodeClass, ask.gpuClass);
    var allowed := Allowed(ask.placement, nodes, accounts.labels);
    var narrowing := if allowed.Some? then ask.placement else None;
    if !(narrowing.Some? || ask.gpus >= 2 || ask.bestEffort) {
      return None;
    }
    var largestFree;
    if allowed.Some? {
      largestFree := LargestOf(nodes.value, allowed.value);
    } else {
      var known := Find(accounts.freeByClass, ask.gpuClass);
      if known.None? {
        return None;
      }
      largestFree := known.value;
    }
    var claimed := NodeClaims(accounts, ask.gpuClass, allowed, uid);
    fit := Some(Fit(largestFree, claimed, narrowing));
  }

  // -- a judged ask can be placed, wherever the claims land ------------------------------------------

  /** Some of the claims bound, each to a node its own placement leaves it. */
  type Binding = map<string, string>

  ghost predicate Binds(b: Binding, cls: string, nodes: Nodes, labels: NodeLabels, pods: Records) {
    forall u <- b :: u in pods && IsClaim(pods[u], cls) && b[u] in Usable(pods[u].placement, nodes, labels)
  }

  ghost function BoundTo(b: Binding, pods: Records, n: string): string -> int {
    u => if u in b && u in pods && b[u] == n then pods[u].gpuCount else 0
  }

  ghost function Load(b: Binding, pods: Records, n: string): int {
    SumKeys(b.Keys, BoundTo(b, pods, n))
  }

  lemma LoadWithinClaims(ask: Ask, uid: string, nodes: Nodes, labels: NodeLabels, pods: Records, b: Binding, n: string)
    requires Binds(b, ask.gpuClass, nodes, labels, pods) && uid !in b
    requires n in Usable(ask.placement, nodes, labels)
    ensures Load(b, pods, n) <= ClaimedFrom(ask, uid, nodes, labels, pods)
  {
    var allowed := Allowed(ask.placement, Some(nodes), labels);
    var term := ClaimOf(pods, ask.gpuClass, Some(nodes), labels, allowed, uid);
    forall u | u in b ensures BoundTo(b, pods, n)(u) <= term(u) {
      if b[u] == n {
        var theirs := Allowed(pods[u].placement, Some(nodes), labels);
        if theirs.Some? && allowed.Some? {
          assert n in theirs.value * allowed.value;
        }
        assert Overlaps(theirs, allowed);
      }
    }
    assert b.Keys <= pods.Keys;
    SumKeysWithin(b.Keys, pods.Keys, BoundTo(b, pods, n), term);
  }

  /** When the ask fits, one node it may use (and that the scheduler accepts, once
      every node carries labels) keeps room for it under every binding of the other
      outstanding claims, whichever of them bind and where. */
  lemma FitMeansPlaceable(ask: Ask, uid: string, nodes: Nodes, labels: NodeLabels, pods: Records, fit: Fit)
    returns (n: string)
    requires IsFit(ask, uid, Some(nodes), labels, pods, Some(fit)) && fit.Fits(ask.gpus)
    requires ask.gpus >= 1
    ensures n in nodes && n in Usable(ask.placement, nodes, labels)
    ensures (forall m <- nodes :: m in labels) ==> MayUse(ask.placement, n, labels)
    ensures forall b: Binding :: Binds(b, ask.gpuClass, nodes, labels, pods) && uid !in b ==>
      nodes[n] - Load(b, pods, n) >= ask.gpus
  {
    var usable := Usable(ask.placement, nodes, labels);
    if usable == {} {
      SumKeysWithin({}, pods.Keys, BoundTo(map[], pods, ""),
        ClaimOf(pods, ask.gpuClass, Some(nodes), labels, Allowed(ask.placement, Some(nodes), labels), uid));
      assert false;
    }
    n :| n in usable && Or0(nodes, n) == fit.largestFree;
    if forall m <- nodes :: m in labels {
      UsableIsMayUse(ask.placement, nodes, labels);
    }
    forall b: Binding | Binds(b, ask.gpuClass, nodes, labels, pods) && uid !in b
      ensures nodes[n] - Load(b, pods, n) >= ask.gpus
    {
      LoadWithinClaims(ask, uid, nodes, labels, pods, b, n);
    }
  }

  // -- any run of judged grants keeps every claim bindable at once -------------------------------------

  ghost predicate Complete(b: Binding, cls: string, nodes: Nodes, labels: NodeLabels, pods: Records) {
    forall u <- pods :: IsClaim(pods[u], cls) && Usable(pods[u].placement, nodes, labels) != {} ==> u in b
  }

  ghost predicate WithinFree(b: Binding, nodes: Nodes, pods: Records) {
    forall n <- nodes :: Load(b, pods, n) == 0 || Load(b, pods, n) <= nodes[n]
  }

  /** All the claims of the class that allow some node can be bound at once. */
  ghost predicate Bindable(cls: string, nodes: Nodes, labels: NodeLabels, pods: Records) {
    exists b: Binding :: Binds(b, cls, nodes, labels, pods) && Complete(b, cls, nodes, labels, pods) &&
      WithinFree(b, nodes, pods)
  }

  datatype Grant = Grant(uid: string, namespace: string, name: string, ask: Ask, reservationId: int) {
    /** The claim recorded for a pod admitted under the grant. */
    function Claim(): GpuPod {
      GpuPod(namespace, name, ask.gpuClass, ask.gpus, None, ask.placement, Some(reservationId))
    }
  }

  lemma LoadAfter(b: Binding, pods: Records, g: Grant, at: string, n: string)
    requires g.uid !in b && g.uid !in pods
    ensures Load(b[g.uid := at], pods[g.uid := g.Claim()], n) == Load(b, pods, n) + if n == at then g.ask.gpus else 0
  {
    var b', pods' := b[g.uid := at], pods[g.uid := g.Claim()];
    SumKeysRemove(b'.Keys, g.uid, BoundTo(b', pods', n));
    assert b'.Keys - {g.uid} == b.Keys;
    SumKeysSame(b.Keys, BoundTo(b', pods', n), BoundTo(b, pods, n));
  }

  lemma LoadUnchanged(b: Binding, pods: Records, g: Grant, n: string)
    requires g.uid !in b && g.uid !in pods
    ensures Load(b, pods[g.uid := g.Claim()], n) == Load(b, pods, n)
  {
    SumKeysSame(b.Keys, BoundTo(b, pods[g.uid := g.Claim()], n), BoundTo(b, pods, n));
  }

  /** All the claims so far can be bound at once leaving room for the grant's pod on
      a node it may use. */
  ghost predicate CanJoin(g: Grant, nodes: Nodes, labels: NodeLabels, pods: Records) {
    exists b: Binding, n: string :: Leaves(b, n, g, nodes, labels, pods)
  }

  ghost predicate Leaves(b: Binding, n: string, g: Grant, nodes: Nodes, labels: NodeLabels, pods: Records) {
    && Binds(b, g.ask.gpuClass, nodes, labels, pods) && Complete(b, g.ask.gpuClass, nodes, labels, pods)
    && WithinFree(b, nodes, pods)
    && n in nodes && n in Usable(g.ask.placement, nodes, labels) && nodes[n] - Load(b, pods, n) >= g.ask.gpus
  }

  /** A grant of the class, judged or not, recorded as a claim keeps all claims
      bindable exactly when it could join a binding of the others (or allows no
      node at all, and so claims nothing). */
  lemma JoinsExactly(nodes: Nodes, labels: NodeLabels, pods: Records, g: Grant)
    requires g.uid !in pods && g.ask.gpus >= 1
    ensures Bindable(g.ask.gpuClass, nodes, labels, pods[g.uid := g.Claim()]) <==>
      CanJoin(g, nodes, labels, pods) ||
      (Usable(g.ask.placement, nodes, labels) == {} && Bindable(g.ask.gpuClass, nodes, labels, pods))
  {
    var cls, pods' := g.ask.gpuClass, pods[g.uid := g.Claim()];
    if CanJoin(g, nodes, labels, pods) {
      var b: Binding, n: string :| Leaves(b, n, g, nodes, labels, pods);
      PlacedToo(cls, nodes, labels, pods, g, b, n);
    } else if Usable(g.ask.placement, nodes, labels) == {} && Bindable(cls, nodes, labels, pods) {
      ClaimsNothing(nodes, labels, pods, g);
    }
    if Bindable(cls, nodes, labels, pods') {
      var b': Binding :|
        Binds(b', cls, nodes, labels, pods') && Complete(b', cls, nodes, labels, pods') && WithinFree(b', nodes, pods');
      WithoutGrant(nodes, labels, pods, g, b');
    }
  }

  lemma ClaimsNothing(nodes: Nodes, labels: NodeLabels, pods: Records, g: Grant)
    requires g.uid !in pods && Usable(g.ask.placement, nodes, labels) == {}
    requires Bindable(g.ask.gpuClass, nodes, labels, pods)
    ensures Bindable(g.ask.gpuClass, nodes, labels, pods[g.uid := g.Claim()])
  {
    var cls, pods' := g.ask.gpuClass, pods[g.uid := g.Claim()];
    var b: Binding :|
      Binds(b, cls, nodes, labels, pods) && Complete(b, cls, nodes, labels, pods) && WithinFree(b, nodes, pods);
    forall n | n in nodes ensures Load(b, pods', n) == 0 || Load(b, pods', n) <= nodes[n] {
      LoadUnchanged(b, pods, g, n);
    }
    assert Binds(b, cls, nodes, labels, pods');
    assert Complete(b, cls, nodes, labels, pods');
    assert WithinFree(b, nodes, pods');
  }

  /** Taking a grant's pod out of a binding of everything leaves a binding of the
      rest, with the pod's room free where it was. */
  lemma WithoutGrant(nodes: Nodes, labels: NodeLabels, pods: Records, g: Grant, b': Binding)
    requires g.uid !in pods && g.ask.gpus >= 1
    requires Binds(b', g.ask.gpuClass, nodes, labels, pods[g.uid := g.Claim()])
    requires Complete(b', g.ask.gpuClass, nodes, labels, pods[g.uid := g.Claim()])
    requires WithinFree(b', nodes, pods[g.uid := g.Claim()])
    ensures Bindable(g.ask.gpuClass, nodes, labels, pods)
    ensures g.uid in b' ==> CanJoin(g, nodes, labels, pods)
    ensures g.uid !in b' ==> Usable(g.ask.placement, nodes, labels) == {}
  {
    RestBinds(nodes, labels, pods, g, b');
    assert Bindable(g.ask.gpuClass, nodes, labels, pods);
    OwnNode(nodes, labels, pods, g, b');
    if g.uid in b' {
      RoomWasItsOwn(nodes, labels, pods, g, b');
    }
  }

  lemma OwnNode(nodes: Nodes, labels: NodeLabels, pods: Records, g: Grant, b': Binding)
    requires Binds(b', g.ask.gpuClass, nodes, labels, pods[g.uid := g.Claim()])
    requires Complete(b', g.ask.gpuClass, nodes, labels, pods[g.uid := g.Claim()])
    ensures g.uid in b' ==> b'[g.uid] in nodes && b'[g.uid] in Usable(g.ask.placement, nodes, labels)
    ensures g.uid !in b' ==> Usable(g.ask.placement, nodes, labels) == {}
  {
    assert pods[g.uid := g.Claim()][g.uid] == g.Claim();
    assert IsClaim(g.Claim(), g.ask.gpuClass);
  }

  lemma RoomWasItsOwn(nodes: Nodes, labels: NodeLabels, pods: Records, g: Grant, b': Binding)
    requires g.uid !in pods && g.uid in b' && g.ask.gpus >= 1
    requires b'[g.uid] in Usable(g.ask.placement, nodes, labels) && b'[g.uid] in nodes
    requires WithinFree(b', nodes, pods[g.uid := g.Claim()])
    requires Binds(b' - {g.uid}, g.ask.gpuClass, nodes, labels, pods)
    requires Complete(b' - {g.uid}, g.ask.gpuClass, nodes, labels, pods)
    requires WithinFree(b' - {g.uid}, nodes, pods)
    ensures CanJoin(g, nodes, labels, pods)
  {
    var n := b'[g.uid];
    LoadWithout(pods, g, b', n);
    assert Leaves(b' - {g.uid}, n, g, nodes, labels, pods);
  }

  lemma RestBinds(nodes: Nodes, labels: NodeLabels, pods: Records, g: Grant, b': Binding)
    requires g.uid !in pods
    requires Binds(b', g.ask.gpuClass, nodes, labels, pods[g.uid := g.Claim()])
    requires Complete(b', g.ask.gpuClass, nodes, labels, pods[g.uid := g.Claim()])
    requires WithinFree(b', nodes, pods[g.uid := g.Claim()])
    ensures Binds(b' - {g.uid}, g.ask.gpuClass, nodes, labels, pods)
    ensures Complete(b' - {g.uid}, g.ask.gpuClass, nodes, labels, pods)
    ensures WithinFree(b' - {g.uid}, nodes, pods)
  {
    RestBindsPods(nodes, labels, pods, g, b');
    RestWithinFree(nodes, pods, g, b');
  }

  lemma RestBindsPods(nodes: Nodes, labels: NodeLabels, pods: Records, g: Grant, b': Binding)
    requires g.uid !in pods
    requires Binds(b', g.ask.gpuClass, nodes, labels, pods[g.uid := g.Claim()])
    requires Complete(b', g.ask.gpuClass, nodes, labels, pods[g.uid := g.Claim()])
    ensures Binds(b' - {g.uid}, g.ask.gpuClass, nodes, labels, pods)
    ensures Complete(b' - {g.uid}, g.ask.gpuClass, nodes, labels, pods)
  {
    var b, pods' := b' - {g.uid}, pods[g.uid := g.Claim()];
    forall u | u in pods ensures pods'[u] == pods[u] && (u in b <==> u in b') {
    }
    forall u | u in b ensures u in pods && b[u] == b'[u] {
      assert u in pods';
    }
  }

  lemma RestWithinFree(nodes: Nodes, pods: Records, g: Grant, b': Binding)
    requires g.uid !in pods && WithinFree(b', nodes, pods[g.uid := g.Claim()])
    ensures WithinFree(b' - {g.uid}, nodes, pods)
  {
    forall n | n in nodes ensures Load(b' - {g.uid}, pods, n) == 0 || Load(b' - {g.uid}, pods, n) <= nodes[n] {
      LoadWithout(pods, g, b', n);
    }
  }

  lemma LoadWithout(pods: Records, g: Grant, b': Binding, n: string)
    requires g.uid !in pods
    ensures Load(b', pods[g.uid := g.Claim()], n)
         == Load(b' - {g.uid}, pods, n) + if g.uid in b' && b'[g.uid] == n then g.ask.gpus else 0
    ensures Load(b' - {g.uid}, pods, n) >= 0
  {
    var b := b' - {g.uid};
    SumKeysWithin({}, b.Keys, BoundTo(b, pods, n), BoundTo(b, pods, n));
    if g.uid in b' {
      LoadAfter(b, pods, g, b'[g.uid], n);
      assert b[g.uid := b'[g.uid]] == b';
    } else {
      assert b == b';
      LoadUnchanged(b, pods, g, n);
    }
  }

  /** A grant guard 5 judged and let through can always join. */
  lemma FitCanJoin(nodes: Nodes, labels: NodeLabels, pods: Records, g: Grant, fit: Fit)
    requires Bindable(g.ask.gpuClass, nodes, labels, pods) && g.uid !in pods && g.ask.gpus >= 1
    requires IsFit(g.ask, g.uid, Some(nodes), labels, pods, Some(fit)) && fit.Fits(g.ask.gpus)
    ensures CanJoin(g, nodes, labels, pods)
  {
    var cls := g.ask.gpuClass;
    var b: Binding :|
      Binds(b, cls, nodes, labels, pods) && Complete(b, cls, nodes, labels, pods) && WithinFree(b, nodes, pods);
    var n := FitMeansPlaceable(g.ask, g.uid, nodes, labels, pods, fit);
    assert Leaves(b, n, g, nodes, labels, pods);
  }

  lemma GrantKeepsBindable(cls: string, nodes: Nodes, labels: NodeLabels, pods: Records, g: Grant, fit: Fit)
    requires Bindable(cls, nodes, labels, pods) && g.uid !in pods && g.ask.gpus >= 1
    requires g.ask.gpuClass == cls ==>
      IsFit(g.ask, g.uid, Some(nodes), labels, pods, Some(fit)) && fit.Fits(g.ask.gpus)
    ensures Bindable(cls, nodes, labels, pods[g.uid := g.Claim()])
  {
    if g.ask.gpuClass == cls {
      FitCanJoin(nodes, labels, pods, g, fit);
      JoinsExactly(nodes, labels, pods, g);
    } else {
      var b: Binding :|
        Binds(b, cls, nodes, labels, pods) && Complete(b, cls, nodes, labels, pods) && WithinFree(b, nodes, pods);
      PlacedElsewhere(cls, nodes, labels, pods, g, b);
    }
  }

  lemma PlacedToo(cls: string, nodes: Nodes, labels: NodeLabels, pods: Records, g: Grant, b: Binding, at: string)
    requires Binds(b, cls, nodes, labels, pods) && Complete(b, cls, nodes, labels, pods) && WithinFree(b, nodes, pods)
    requires g.uid !in pods && g.ask.gpuClass == cls
    requires at in nodes && at in Usable(g.ask.placement, nodes, labels) && nodes[at] - Load(b, pods, at) >= g.ask.gpus
    ensures Bindable(cls, nodes, labels, pods[g.uid := g.Claim()])
  {
    var b', pods' := b[g.uid := at], pods[g.uid := g.Claim()];
    PlacedWithinFree(nodes, pods, g, b, at);
    PlacedBinds(cls, nodes, labels, pods, g, b, at);
    assert Binds(b', cls, nodes, labels, pods');
    assert Complete(b', cls, nodes, labels, pods') && WithinFree(b', nodes, pods');
  }

  lemma PlacedWithinFree(nodes: Nodes, pods: Records, g: Grant, b: Binding, at: string)
    requires g.uid !in pods && g.uid !in b && WithinFree(b, nodes, pods)
    requires at in nodes && nodes[at] - Load(b, pods, at) >= g.ask.gpus
    ensures WithinFree(b[g.uid := at], nodes, pods[g.uid := g.Claim()])
  {
    var b', pods' := b[g.uid := at], pods[g.uid := g.Claim()];
    forall n | n in nodes ensures Load(b', pods', n) == 0 || Load(b', pods', n) <= nodes[n] {
      LoadAfter(b, pods, g, at, n);
    }
  }

  lemma PlacedBinds(cls: string, nodes: Nodes, labels: NodeLabels, pods: Records, g: Grant, b: Binding, at: string)
    requires Binds(b, cls, nodes, labels, pods) && Complete(b, cls, nodes, labels, pods)
    requires g.uid !in pods && g.ask.gpuClass == cls && at in Usable(g.ask.placement, nodes, labels)
    ensures Binds(b[g.uid := at], cls, nodes, labels, pods[g.uid := g.Claim()])
    ensures Complete(b[g.uid := at], cls, nodes, labels, pods[g.uid := g.Claim()])
  {
    var pods' := pods[g.uid := g.Claim()];
    forall u | u in pods ensures pods'[u] == pods[u] {
    }
  }

  lemma PlacedElsewhere(cls: string, nodes: Nodes, labels: NodeLabels, pods: Records, g: Grant, b: Binding)
    requires Binds(b, cls, nodes, labels, pods) && Complete(b, cls, nodes, labels, pods) && WithinFree(b, nodes, pods)
    requires g.uid !in pods && g.ask.gpuClass != cls
    ensures Bindable(cls, nodes, labels, pods[g.uid := g.Claim()])
  {
    var pods' := pods[g.uid := g.Claim()];
    forall n | n in nodes ensures Load(b, pods', n) == 0 || Load(b, pods', n) <= nodes[n] {
      LoadUnchanged(b, pods, g, n);
    }
    forall u | u in b ensures u in pods' && pods'[u] == pods[u] {
    }
    assert Binds(b, cls, nodes, labels, pods');
    assert Complete(b, cls, nodes, labels, pods');
    assert WithinFree(b, nodes, pods');
  }

  // -- one GPU, counted ---------------------------------------------------------------------

  ghost function Room(nodes: Nodes): string -> int {
    n => if n in nodes then Max(0, nodes[n]) else 0
  }

  /** The free GPUs of the class, over all its nodes. */
  ghost function TotalFree(nodes: Nodes): int {
    SumKeys(nodes.Keys, Room(nodes))
  }

  ghost function LoadOf(b: Binding, bound: set<string>, pods: Records): string -> int {
    n => SumKeys(bound, BoundTo(b, pods, n))
  }

  ghost function CountOf(pods: Records): string -> int {
    u => if u in pods then pods[u].gpuCount else 0
  }

  ghost function Here(b: Binding, u: string, pods: Records): string -> int {
    n => if u in b && u in pods && b[u] == n then pods[u].gpuCount else 0
  }

  /** Summed over the nodes, the loads are the GPUs of the pods bound. */
  lemma {:induction false} LoadsAddUp(b: Binding, bound: set<string>, pods: Records, nodes: Nodes)
    requires bound <= b.Keys && forall u <- bound :: u in pods && b[u] in nodes
    ensures SumKeys(nodes.Keys, LoadOf(b, bound, pods)) == SumKeys(bound, CountOf(pods))
    decreases bound
  {
    if bound == {} {
      SumKeysZero(nodes.Keys, LoadOf(b, bound, pods));
    } else {
      var u :| u in bound;
      LoadsAddUp(b, bound - {u}, pods, nodes);
      OneMoreAddsUp(b, bound, u, pods, nodes);
    }
  }

  lemma OneMoreAddsUp(b: Binding, bound: set<string>, u: string, pods: Records, nodes: Nodes)
    requires u in bound && bound <= b.Keys && u in pods && b[u] in nodes
    requires SumKeys(nodes.Keys, LoadOf(b, bound - {u}, pods)) == SumKeys(bound - {u}, CountOf(pods))
    ensures SumKeys(nodes.Keys, LoadOf(b, bound, pods)) == SumKeys(bound, CountOf(pods))
  {
    SumKeysRemove(bound, u, CountOf(pods));
    OneMoreLoad(b, bound, u, pods, nodes);
  }

  lemma OneMoreLoad(b: Binding, bound: set<string>, u: string, pods: Records, nodes: Nodes)
    requires u in bound && bound <= b.Keys && u in pods && b[u] in nodes
    ensures SumKeys(nodes.Keys, LoadOf(b, bound, pods))
         == SumKeys(nodes.Keys, LoadOf(b, bound - {u}, pods)) + pods[u].gpuCount
  {
    forall n | n in nodes ensures LoadOf(b, bound, pods)(n) == Here(b, u, pods)(n) + LoadOf(b, bound - {u}, pods)(n) {
      LoadSplits(b, bound, u, pods, n);
    }
    SumKeysAdd(nodes.Keys, Here(b, u, pods), LoadOf(b, bound - {u}, pods), LoadOf(b, bound, pods));
    OnOneNode(b, u, pods, nodes);
  }

  lemma LoadSplits(b: Binding, bound: set<string>, u: string, pods: Records, n: string)
    requires u in bound
    ensures LoadOf(b, bound, pods)(n) == Here(b, u, pods)(n) + LoadOf(b, bound - {u}, pods)(n)
  {
    SumKeysRemove(bound, u, BoundTo(b, pods, n));
  }

  lemma OnOneNode(b: Binding, u: string, pods: Records, nodes: Nodes)
    requires u in b && u in pods && b[u] in nodes
    ensures SumKeys(nodes.Keys, Here(b, u, pods)) == pods[u].gpuCount
  {
    SumKeysRemove(nodes.Keys, b[u], Here(b, u, pods));
    SumKeysZero(nodes.Keys - {b[u]}, Here(b, u, pods));
  }

  /** GPUs of the class claimed from any of its nodes, by pods other than `uid`. */
  ghost function ClaimedAnywhere(cls: string, nodes: Nodes, labels: NodeLabels, pods: Records, uid: string): int {
    Claimed(pods, cls, Some(nodes), labels, None, uid)
  }

  /** A complete binding carries exactly the class's claims. */
  lemma CompleteCarriesClaims(b: Binding, cls: string, nodes: Nodes, labels: NodeLabels, pods: Records, uid: string)
    requires Binds(b, cls, nodes, labels, pods) && Complete(b, cls, nodes, labels, pods) && uid !in pods
    requires nodes != map[]
    ensures SumKeys(nodes.Keys, LoadOf(b, b.Keys, pods)) == ClaimedAnywhere(cls, nodes, labels, pods, uid)
  {
    var term := ClaimOf(pods, cls, Some(nodes), labels, None, uid);
    BindsWithin(b, cls, nodes, labels, pods);
    LoadsAddUp(b, b.Keys, pods, nodes);
    forall u | u in pods ensures term(u) == if u in b then CountOf(pods)(u) else 0 {
      CarriedOrNone(b, cls, nodes, labels, pods, uid, u);
    }
    SumKeysSame(b.Keys, CountOf(pods), term);
    SumKeysSupport(b.Keys, pods.Keys, term);
  }

  lemma BindsWithin(b: Binding, cls: string, nodes: Nodes, labels: NodeLabels, pods: Records)
    requires Binds(b, cls, nodes, labels, pods)
    ensures b.Keys <= pods.Keys && forall u <- b :: u in pods && b[u] in nodes
  {
    forall u <- b ensures u in pods && b[u] in nodes {
      assert b[u] in Usable(pods[u].placement, nodes, labels);
    }
  }

  /** A pod's claim is carried whole if it is bound, and is none if it is not. */
  lemma CarriedOrNone(
    b: Binding, cls: string, nodes: Nodes, labels: NodeLabels, pods: Records, uid: string, u: string)
    requires Binds(b, cls, nodes, labels, pods) && Complete(b, cls, nodes, labels, pods) && uid !in pods
    requires nodes != map[] && u in pods
    ensures ClaimOf(pods, cls, Some(nodes), labels, None, uid)(u) == if u in b then pods[u].gpuCount else 0
  {
    ClaimsIfUsable(pods[u], cls, nodes, labels);
    if u in b {
      assert b[u] in Usable(pods[u].placement, nodes, labels);
    }
  }

  lemma ClaimsIfUsable(p: GpuPod, cls: string, nodes: Nodes, labels: NodeLabels)
    requires nodes != map[]
    ensures ClaimsFrom(p, cls, Some(nodes), labels, None) <==>
      IsClaim(p, cls) && Usable(p.placement, nodes, labels) != {}
  {
    var n :| n in nodes;
    assert n in nodes.Keys;
  }

  /** For a pod of one GPU that any node of the class will do for, the count is exact:
      if the claims so far can all be bound, it can join them if and only if they claim
      fewer GPUs than the class's nodes have free between them. */
  lemma OneMoreFitsExactly(nodes: Nodes, labels: NodeLabels, pods: Records, g: Grant)
    requires g.uid !in pods && g.ask.gpus == 1 && Allowed(g.ask.placement, Some(nodes), labels).None?
    requires Bindable(g.ask.gpuClass, nodes, labels, pods)
    ensures CanJoin(g, nodes, labels, pods) <==>
      ClaimedAnywhere(g.ask.gpuClass, nodes, labels, pods, g.uid) < TotalFree(nodes)
  {
    if nodes == map[] {
      SumKeysWithin({}, pods.Keys, Room(nodes), ClaimOf(pods, g.ask.gpuClass, Some(nodes), labels, None, g.uid));
    } else {
      if CanJoin(g, nodes, labels, pods) {
        JoinNeedsRoom(nodes, labels, pods, g);
      }
      if ClaimedAnywhere(g.ask.gpuClass, nodes, labels, pods, g.uid) < TotalFree(nodes) {
        RoomLetsJoin(nodes, labels, pods, g);
      }
    }
  }

  lemma JoinNeedsRoom(nodes: Nodes, labels: NodeLabels, pods: Records, g: Grant)
    requires g.uid !in pods && g.ask.gpus == 1 && nodes != map[] && CanJoin(g, nodes, labels, pods)
    ensures ClaimedAnywhere(g.ask.gpuClass, nodes, labels, pods, g.uid) < TotalFree(nodes)
  {
    var b: Binding, n: string :| Leaves(b, n, g, nodes, labels, pods);
    CompleteCarriesClaims(b, g.ask.gpuClass, nodes, labels, pods, g.uid);
    JoinedLeavesRoom(b, n, nodes, pods);
  }

  lemma RoomLetsJoin(nodes: Nodes, labels: NodeLabels, pods: Records, g: Grant)
    requires g.uid !in pods && g.ask.gpus == 1 && Allowed(g.ask.placement, Some(nodes), labels).None?
    requires nodes != map[] && Bindable(g.ask.gpuClass, nodes, labels, pods)
    requires ClaimedAnywhere(g.ask.gpuClass, nodes, labels, pods, g.uid) < TotalFree(nodes)
    ensures CanJoin(g, nodes, labels, pods)
  {
    var cls := g.ask.gpuClass;
    var b: Binding :|
      Binds(b, cls, nodes, labels, pods) && Complete(b, cls, nodes, labels, pods) && WithinFree(b, nodes, pods);
    var n := BindingHasRoom(b, cls, nodes, labels, pods, g.uid);
    assert n in Usable(g.ask.placement, nodes, labels);
    assert Leaves(b, n, g, nodes, labels, pods);
  }

  lemma BindingHasRoom(b: Binding, cls: string, nodes: Nodes, labels: NodeLabels, pods: Records, uid: string)
    returns (n: string)
    requires Binds(b, cls, nodes, labels, pods) && Complete(b, cls, nodes, labels, pods) && uid !in pods
    requires WithinFree(b, nodes, pods) && nodes != map[]
    requires ClaimedAnywhere(cls, nodes, labels, pods, uid) < TotalFree(nodes)
    ensures n in nodes && nodes[n] - Load(b, pods, n) >= 1
  {
    CompleteCarriesClaims(b, cls, nodes, labels, pods, uid);
    n := NodeWithRoom(b, nodes, pods);
  }

  lemma LoadsWithinRoom(b: Binding, nodes: Nodes, pods: Records)
    requires WithinFree(b, nodes, pods)
    ensures forall n <- nodes :: 0 <= LoadOf(b, b.Keys, pods)(n) == Load(b, pods, n) <= Room(nodes)(n)
  {
    forall n | n in nodes ensures Load(b, pods, n) >= 0 {
      SumKeysWithin({}, b.Keys, BoundTo(b, pods, n), BoundTo(b, pods, n));
    }
  }

  lemma JoinedLeavesRoom(b: Binding, n: string, nodes: Nodes, pods: Records)
    requires WithinFree(b, nodes, pods) && n in nodes && nodes[n] - Load(b, pods, n) >= 1
    ensures SumKeys(nodes.Keys, LoadOf(b, b.Keys, pods)) < TotalFree(nodes)
  {
    LoadsWithinRoom(b, nodes, pods);
    SumKeysStrict(nodes.Keys, n, LoadOf(b, b.Keys, pods), Room(nodes));
  }

  lemma NodeWithRoom(b: Binding, nodes: Nodes, pods: Records) returns (n: string)
    requires WithinFree(b, nodes, pods) && SumKeys(nodes.Keys, LoadOf(b, b.Keys, pods)) < TotalFree(nodes)
    ensures n in nodes && nodes[n] - Load(b, pods, n) >= 1
  {
    LoadsWithinRoom(b, nodes, pods);
    n := SumKeysLess(nodes.Keys, LoadOf(b, b.Keys, pods), Room(nodes));
  }

  /** The grant was judged by guard 5 and fits. */
  ghost predicate JudgedFit(free: FreeMap, labels: NodeLabels, pods: Records, g: Grant) {
    exists fit :: IsFit(g.ask, g.uid, Find(free, g.ask.gpuClass), labels, pods, Some(fit)) && fit.Fits(g.ask.gpus)
  }

  /** Guard 5 let the grant through without judging it: one GPU of a class its
      placement does not narrow, or a class without data. */
  ghost predicate Unjudged(free: FreeMap, labels: NodeLabels, pods: Records, g: Grant) {
    IsFit(g.ask, g.uid, Find(free, g.ask.gpuClass), labels, pods, None)
  }

  /** Grants made one after another, each let through by guard 5 against the claims
      of those before it, and then recorded as a claim itself. */
  ghost predicate GrantRun(free: FreeMap, labels: NodeLabels, pods: Records, grants: seq<Grant>)
    decreases |grants|
  {
    grants == [] ||
    var g := grants[0];
    && g.uid !in pods && g.ask.gpus >= 1
    && (JudgedFit(free, labels, pods, g) || Unjudged(free, labels, pods, g))
    && GrantRun(free, labels, pods[g.uid := g.Claim()], grants[1..])
  }

  function AfterGrants(pods: Records, grants: seq<Grant>): Records
    decreases |grants|
  {
    if grants == [] then pods else AfterGrants(pods[grants[0].uid := grants[0].Claim()], grants[1..])
  }

  /** Whether, when a grant is not judged, the claims outstanding leave a free GPU of
      the class: the claims the controller nets, against the free GPUs it tracks. */
  ghost predicate LeavesOne(nodes: Nodes, labels: NodeLabels, pods: Records, g: Grant) {
    nodes == map[] || ClaimedAnywhere(g.ask.gpuClass, nodes, labels, pods, g.uid) < TotalFree(nodes)
  }

  /** Every grant of the class that guard 5 did not judge found a free GPU unclaimed. */
  ghost predicate UnjudgedLeaveOne(cls: string, free: FreeMap, labels: NodeLabels, pods: Records, grants: seq<Grant>)
    requires cls in free
    decreases |grants|
  {
    grants == [] ||
    var g := grants[0];
    && (g.ask.gpuClass == cls && Unjudged(free, labels, pods, g) ==> LeavesOne(free[cls], labels, pods, g))
    && UnjudgedLeaveOne(cls, free, labels, pods[g.uid := g.Claim()], grants[1..])
  }

  /** What guard 5 lets through unjudged, of a class it knows, is one GPU on any node;
      and recording it keeps the claims bindable exactly when a free GPU was unclaimed. */
  lemma UnjudgedExactly(nodes: Nodes, labels: NodeLabels, pods: Records, g: Grant)
    requires g.uid !in pods && g.ask.gpus >= 1 && Bindable(g.ask.gpuClass, nodes, labels, pods)
    requires IsFit(g.ask, g.uid, Some(nodes), labels, pods, None)
    ensures g.ask.gpus == 1 && !g.ask.bestEffort && Usable(g.ask.placement, nodes, labels) == nodes.Keys
    ensures Bindable(g.ask.gpuClass, nodes, labels, pods[g.uid := g.Claim()]) <==> LeavesOne(nodes, labels, pods, g)
  {
    assert !Applies(g.ask, Some(nodes), labels);
    OneMoreFitsExactly(nodes, labels, pods, g);
    JoinsExactly(nodes, labels, pods, g);
  }

  /** One grant of a run, exactly. */
  lemma StepBindableIff(cls: string, free: FreeMap, labels: NodeLabels, pods: Records, g: Grant)
    requires cls in free && g.uid !in pods && g.ask.gpus >= 1
    requires JudgedFit(free, labels, pods, g) || Unjudged(free, labels, pods, g)
    requires Bindable(cls, free[cls], labels, pods)
    ensures Bindable(cls, free[cls], labels, pods[g.uid := g.Claim()]) <==>
      (g.ask.gpuClass == cls && Unjudged(free, labels, pods, g) ==> LeavesOne(free[cls], labels, pods, g))
  {
    if g.ask.gpuClass != cls {
      var b: Binding :| Binds(b, cls, free[cls], labels, pods) && Complete(b, cls, free[cls], labels, pods)
        && WithinFree(b, free[cls], pods);
      PlacedElsewhere(cls, free[cls], labels, pods, g, b);
    } else if Unjudged(free, labels, pods, g) {
      UnjudgedExactly(free[cls], labels, pods, g);
    } else {
      var fit :| IsFit(g.ask, g.uid, Find(free, g.ask.gpuClass), labels, pods, Some(fit)) && fit.Fits(g.ask.gpus);
      GrantKeepsBindable(cls, free[cls], labels, pods, g, fit);
    }
  }

  /** A claim recorded later never makes claims bindable that were not. */
  lemma {:induction false} StaysUnbindable(
    cls: string, nodes: Nodes, labels: NodeLabels, pods: Records, grants: seq<Grant>)
    requires FreshUids(pods, grants)
    ensures Bindable(cls, nodes, labels, AfterGrants(pods, grants)) ==> Bindable(cls, nodes, labels, pods)
    decreases |grants|
  {
    if grants != [] && Bindable(cls, nodes, labels, AfterGrants(pods, grants)) {
      var g, pods' := grants[0], pods[grants[0].uid := grants[0].Claim()];
      StaysUnbindable(cls, nodes, labels, pods', grants[1..]);
      var b': Binding :|
        Binds(b', cls, nodes, labels, pods') && Complete(b', cls, nodes, labels, pods') && WithinFree(b', nodes, pods');
      if g.ask.gpuClass == cls {
        WithoutGrant(nodes, labels, pods, g, b');
      } else {
        WithoutOther(cls, nodes, labels, pods, g, b');
      }
    }
  }

  predicate FreshUids(pods: Records, grants: seq<Grant>)
    decreases |grants|
  {
    grants == [] ||
    (grants[0].uid !in pods && grants[0].ask.gpus >= 1 &&
      FreshUids(pods[grants[0].uid := grants[0].Claim()], grants[1..]))
  }

  lemma {:induction false} RunIsFresh(free: FreeMap, labels: NodeLabels, pods: Records, grants: seq<Grant>)
    requires GrantRun(free, labels, pods, grants)
    ensures FreshUids(pods, grants)
    decreases |grants|
  {
    if grants != [] {
      RunIsFresh(free, labels, pods[grants[0].uid := grants[0].Claim()], grants[1..]);
    }
  }

  lemma WithoutOther(cls: string, nodes: Nodes, labels: NodeLabels, pods: Records, g: Grant, b: Binding)
    requires g.uid !in pods && g.ask.gpuClass != cls
    requires Binds(b, cls, nodes, labels, pods[g.uid := g.Claim()])
    requires Complete(b, cls, nodes, labels, pods[g.uid := g.Claim()])
    requires WithinFree(b, nodes, pods[g.uid := g.Claim()])
    ensures Bindable(cls, nodes, labels, pods)
  {
    var later := pods[g.uid := g.Claim()];
    assert g.uid !in b;
    forall u | u in b ensures u in pods && IsClaim(pods[u], cls) && b[u] in Usable(pods[u].placement, nodes, labels) {
      assert pods[u] == later[u];
    }
    forall u | u in pods && IsClaim(pods[u], cls) && Usable(pods[u].placement, nodes, labels) != {} ensures u in b {
      assert pods[u] == later[u];
    }
    OthersWithinFree(nodes, pods, g, b);
    assert Binds(b, cls, nodes, labels, pods) && Complete(b, cls, nodes, labels, pods) && WithinFree(b, nodes, pods);
  }

  lemma OthersWithinFree(nodes: Nodes, pods: Records, g: Grant, b: Binding)
    requires g.uid !in pods && g.uid !in b && WithinFree(b, nodes, pods[g.uid := g.Claim()])
    ensures WithinFree(b, nodes, pods)
  {
    forall n | n in nodes ensures Load(b, pods, n) == 0 || Load(b, pods, n) <= nodes[n] {
      LoadUnchanged(b, pods, g, n);
    }
  }

  /** Over any run of grants guard 5 lets through, the claims of a class stay
      bindable at once if and only if every grant of it that was not judged found a free
      GPU unclaimed. Judged grants never break it. */
  lemma {:induction false} RunBindableIff(
    cls: string, free: FreeMap, labels: NodeLabels, pods: Records, grants: seq<Grant>)
    requires cls in free && GrantRun(free, labels, pods, grants)
    requires Bindable(cls, free[cls], labels, pods)
    ensures Bindable(cls, free[cls], labels, AfterGrants(pods, grants)) <==>
      UnjudgedLeaveOne(cls, free, labels, pods, grants)
    decreases |grants|
  {
    if grants != [] {
      var g, pods' := grants[0], pods[grants[0].uid := grants[0].Claim()];
      StepBindableIff(cls, free, labels, pods, g);
      if Bindable(cls, free[cls], labels, pods') {
        RunBindableIff(cls, free, labels, pods', grants[1..]);
      } else {
        RunIsFresh(free, labels, pods', grants[1..]);
        StaysUnbindable(cls, free[cls], labels, pods', grants[1..]);
      }
    }
  }

  /** So a run in which guard 5 judged every grant keeps the claims bindable. */
  lemma {:induction false} JudgedRunKeepsBindable(
    cls: string, free: FreeMap, labels: NodeLabels, pods: Records, grants: seq<Grant>)
    requires cls in free && GrantRun(free, labels, pods, grants) && Bindable(cls, free[cls], labels, pods)
    requires forall g <- grants :: Applies(g.ask, Find(free, g.ask.gpuClass), labels) && g.ask.gpuClass in free
    ensures Bindable(cls, free[cls], labels, AfterGrants(pods, grants))
    decreases |grants|
  {
    if grants != [] {
      var g := grants[0];
      StepBindableIff(cls, free, labels, pods, g);
      JudgedRunKeepsBindable(cls, free, labels, pods[g.uid := g.Claim()], grants[1..]);
    }
  }

  /** An unjudged grant can break it: one GPU asked of a class with none free. */
  lemma UnjudgedCanBreak(g: Grant)
    requires g.ask == Ask("H100", 1, None, false)
    ensures Unjudged(map["H100" := map["n" := 0]], map[], map[], g)
    ensures Bindable("H100", map["n" := 0], map[], map[])
    ensures !Bindable("H100", map["n" := 0], map[], map[][g.uid := g.Claim()])
  {
    var nodes: Nodes, pods: Records, b: Binding := map["n" := 0], map[], map[];
    assert Load(b, pods, "n") == 0;
    assert Binds(b, "H100", nodes, map[], pods) && Complete(b, "H100", nodes, map[], pods) &&
      WithinFree(b, nodes, pods);
    JoinsExactly(nodes, map[], pods, g);
    assert "n" in Usable(None, nodes, map[]);
  }

  // -- which changes can help a held ask --------------------------------------------------------------------

  predicate CapacityFreesUp(previous: Option<GpuPod>, current: Option<GpuPod>) {
    if previous.None? || previous == current then false
    else if previous.value.nodeName.None? then current.None? || current.value.nodeName.Some?
    else current.None? || current.value.nodeName != previous.value.nodeName
  }

  /** A pod's class, GPU count and placement never change. */
  predicate SamePod(previous: Option<GpuPod>, current: Option<GpuPod>) {
    previous.Some? && current.Some? ==>
      && previous.value.gpuClass == current.value.gpuClass
      && previous.value.gpuCount == current.value.gpuCount
      && previous.value.placement == current.value.placement
  }

  /** A change that does not concern a class, or frees nothing of it. */
  predicate OnlyTakes(previous: Option<GpuPod>, current: Option<GpuPod>, cls: string) {
    SamePod(previous, current) && (!CapacityFreesUp(previous, current) || previous.value.gpuClass != cls)
  }

  lemma FreeOnlyFalls(allocatable: Nodes, pods: Records, uid: string, record: Option<GpuPod>, cls: string)
    requires OnlyTakes(Find(pods, uid), record, cls)
    ensures forall n <- allocatable ::
      NodesLess(allocatable, Stored(pods, uid, record), Stored(pods, uid, record).Keys, cls)[n]
        <= NodesLess(allocatable, pods, pods.Keys, cls)[n]
  {
    forall n | n in allocatable
      ensures UsedOn(pods, pods.Keys, cls, n)
        <= UsedOn(Stored(pods, uid, record), Stored(pods, uid, record).Keys, cls, n)
    {
      UsedAfter(pods, uid, record, cls, n);
    }
  }

  lemma ClaimsOnlyGrow(
    pods: Records, uid: string, record: Option<GpuPod>, cls: string,
    nodes: Option<Nodes>, nodes': Option<Nodes>, labels: NodeLabels, allowed: Option<set<string>>, exclude: string)
    requires OnlyTakes(Find(pods, uid), record, cls)
    requires nodes.Some? && nodes'.Some? && nodes.value.Keys == nodes'.value.Keys
    ensures Claimed(pods, cls, nodes, labels, allowed, exclude)
      <= Claimed(Stored(pods, uid, record), cls, nodes', labels, allowed, exclude)
  {
    var next := Stored(pods, uid, record);
    var before, after := ClaimOf(pods, cls, nodes, labels, allowed, exclude),
      ClaimOf(next, cls, nodes', labels, allowed, exclude);
    var keys := pods.Keys + next.Keys;
    SumKeysSupport(pods.Keys, keys, before);
    SumKeysSupport(next.Keys, keys, after);
    forall u | u in keys ensures before(u) <= after(u) {
      TermOnlyGrows(pods, uid, record, cls, nodes, nodes', labels, allowed, exclude, u);
    }
    SumKeysBounds(keys, before, after);
  }

  lemma TermOnlyGrows(
    pods: Records, uid: string, record: Option<GpuPod>, cls: string,
    nodes: Option<Nodes>, nodes': Option<Nodes>, labels: NodeLabels, allowed: Option<set<string>>, exclude: string,
    u: string)
    requires OnlyTakes(Find(pods, uid), record, cls)
    requires nodes.Some? && nodes'.Some? && nodes.value.Keys == nodes'.value.Keys
    ensures ClaimOf(pods, cls, nodes, labels, allowed, exclude)(u)
         <= ClaimOf(Stored(pods, uid, record), cls, nodes', labels, allowed, exclude)(u)
  {
    if u == uid {
      ClaimOnlyGrows(Find(pods, uid), record, cls, nodes, nodes', labels, allowed);
    } else {
      assert Find(Stored(pods, uid, record), u) == Find(pods, u);
    }
  }

  lemma ClaimOnlyGrows(
    previous: Option<GpuPod>, current: Option<GpuPod>, cls: string,
    nodes: Option<Nodes>, nodes': Option<Nodes>, labels: NodeLabels, allowed: Option<set<string>>)
    requires OnlyTakes(previous, current, cls)
    requires nodes.Some? && nodes'.Some? && nodes.value.Keys == nodes'.value.Keys
    ensures previous.Some? && ClaimsFrom(previous.value, cls, nodes, labels, allowed) ==>
      && current.Some? && ClaimsFrom(current.value, cls, nodes', labels, allowed)
      && current.value.gpuCount == previous.value.gpuCount
  {
  }

  ghost function FreeOf(inventory: FreeMap, pods: Records, cls: string): Option<Nodes> {
    Find(NodeFree(inventory, pods), cls)
  }

  /** A change that frees nothing leaves every ask's margin, the largest opening
      it may use less the claims on it, no larger than it was. */
  lemma MarginNeverGrows(
    inventory: FreeMap, labels: NodeLabels, pods: Records, uid: string, record: Option<GpuPod>,
    who: string, ask: Ask, before: Fit, after: Fit)
    requires OnlyTakes(Find(pods, uid), record, ask.gpuClass)
    requires IsFit(ask, who, FreeOf(inventory, pods, ask.gpuClass), labels, pods, Some(before))
    requires IsFit(ask, who, FreeOf(inventory, Stored(pods, uid, record), ask.gpuClass), labels,
      Stored(pods, uid, record), Some(after))
    ensures after.largestFree - after.claimed <= before.largestFree - before.claimed
  {
    var next := Stored(pods, uid, record);
    var nodes := NodesLess(inventory[ask.gpuClass], pods, pods.Keys, ask.gpuClass);
    var nodes' := NodesLess(inventory[ask.gpuClass], next, next.Keys, ask.gpuClass);
    LessRoom(inventory, labels, pods, uid, record, who, ask);
    assert nodes.Keys == nodes'.Keys;
    LargestOnlyFalls(nodes, nodes', Usable(ask.placement, nodes, labels), before.largestFree, after.largestFree);
  }

  lemma LargestOnlyFalls(nodes: Nodes, nodes': Nodes, names: set<string>, before: int, after: int)
    requires IsLargest(nodes, names, before) && IsLargest(nodes', names, after)
    requires nodes.Keys == nodes'.Keys && forall n <- nodes :: nodes'[n] <= nodes[n]
    ensures after <= before
  {
    if names != {} {
      var n :| n in names && Or0(nodes', n) == after;
      assert Or0(nodes', n) <= Or0(nodes, n) <= before;
    }
  }

  lemma LessRoom(
    inventory: FreeMap, labels: NodeLabels, pods: Records, uid: string, record: Option<GpuPod>, who: string, ask: Ask)
    requires OnlyTakes(Find(pods, uid), record, ask.gpuClass) && ask.gpuClass in inventory
    ensures var next := Stored(pods, uid, record);
      var nodes := NodesLess(inventory[ask.gpuClass], pods, pods.Keys, ask.gpuClass);
      var nodes' := NodesLess(inventory[ask.gpuClass], next, next.Keys, ask.gpuClass);
      && (forall n <- nodes :: nodes'[n] <= nodes[n])
      && ClaimedFrom(ask, who, nodes, labels, pods) <= ClaimedFrom(ask, who, nodes', labels, next)
  {
    var next := Stored(pods, uid, record);
    var nodes := NodesLess(inventory[ask.gpuClass], pods, pods.Keys, ask.gpuClass);
    var nodes' := NodesLess(inventory[ask.gpuClass], next, next.Keys, ask.gpuClass);
    FreeOnlyFalls(inventory[ask.gpuClass], pods, uid, record, ask.gpuClass);
    assert nodes.Keys == nodes'.Keys;
    ClaimsOnlyGrow(pods, uid, record, ask.gpuClass, Some(nodes), Some(nodes'), labels,
                   Allowed(ask.placement, Some(nodes), labels), who);
  }

  lemma StillStuck(
    inventory: FreeMap, labels: NodeLabels, pods: Records, uid: string, record: Option<GpuPod>, who: string, ask: Ask)
    requires OnlyTakes(Find(pods, uid), record, ask.gpuClass)
    requires !Passes(ask, who, FreeOf(inventory, pods, ask.gpuClass), labels, pods)
    ensures !Passes(ask, who, FreeOf(inventory, Stored(pods, uid, record), ask.gpuClass), labels,
      Stored(pods, uid, record))
  {
    var next := Stored(pods, uid, record);
    var nodes := NodesLess(inventory[ask.gpuClass], pods, pods.Keys, ask.gpuClass);
    var nodes' := NodesLess(inventory[ask.gpuClass], next, next.Keys, ask.gpuClass);
    LessRoom(inventory, labels, pods, uid, record, who, ask);
    assert FreeOf(inventory, pods, ask.gpuClass) == Some(nodes);
    assert FreeOf(inventory, next, ask.gpuClass) == Some(nodes');
    StuckOn(ask, who, nodes, nodes', labels, pods, next);
  }

  lemma StuckOn(ask: Ask, who: string, nodes: Nodes, nodes': Nodes, labels: NodeLabels, pods: Records, next: Records)
    requires nodes.Keys == nodes'.Keys && (forall n <- nodes :: nodes'[n] <= nodes[n])
    requires ClaimedFrom(ask, who, nodes, labels, pods) <= ClaimedFrom(ask, who, nodes', labels, next)
    requires !Passes(ask, who, Some(nodes), labels, pods)
    ensures !Passes(ask, who, Some(nodes'), labels, next)
  {
    RoomOnlyFalls(ask, nodes, nodes', Usable(ask.placement, nodes, labels),
                  ClaimedFrom(ask, who, nodes, labels, pods), ClaimedFrom(ask, who, nodes', labels, next));
  }

  lemma RoomOnlyFalls(ask: Ask, nodes: Nodes, nodes': Nodes, usable: set<string>, claimed: int, claimed': int)
    requires nodes.Keys == nodes'.Keys && (forall n <- nodes :: nodes'[n] <= nodes[n]) && claimed <= claimed'
    ensures HasRoom(ask, nodes', usable, claimed') ==> HasRoom(ask, nodes, usable, claimed)
  {
    if usable != {} && HasRoom(ask, nodes', usable, claimed') {
      var n :| n in usable && Or0(nodes', n) - claimed' >= ask.gpus;
      assert Or0(nodes, n) - claimed >= ask.gpus;
    }
  }

  /** Where and of whom a question of fit is asked. */
  datatype Setting = Setting(inventory: FreeMap, labels: NodeLabels, pods: Records, who: string, ask: Ask) {
    ghost predicate Passing() {
      Passes(ask, who, FreeOf(inventory, pods, ask.gpuClass), labels, pods)
    }
  }

  /** The change of one record lets the setting's ask pass, which did not. */
  ghost predicate Helps(previous: Option<GpuPod>, current: Option<GpuPod>, uid: string, s: Setting) {
    Find(s.pods, uid) == previous && !s.Passing() && s.(pods := Stored(s.pods, uid, current)).Passing()
  }

  /** The test is exact: of the changes a pod goes through (a bound one is not unbound
      again), those that free capacity are those that can let some ask pass somewhere. */
  lemma FreesUpExactly(previous: Option<GpuPod>, current: Option<GpuPod>, uid: string)
    requires SamePod(previous, current) && (previous.Some? ==> previous.value.gpuCount >= 1)
    requires previous.Some? && previous.value.nodeName.Some? && current.Some? ==> current.value.nodeName.Some?
    ensures CapacityFreesUp(previous, current) <==> exists s :: Helps(previous, current, uid, s)
  {
    if CapacityFreesUp(previous, current) {
      var n := NodeLeftFree(previous.value, current);
      var s := GoneFromNode(previous.value, current, uid, n);
    }
    if s :| Helps(previous, current, uid, s) {
      OnlyFreedHelps(previous, current, uid, s);
    }
  }

  lemma OnlyFreedHelps(previous: Option<GpuPod>, current: Option<GpuPod>, uid: string, s: Setting)
    requires SamePod(previous, current) && Helps(previous, current, uid, s)
    ensures CapacityFreesUp(previous, current)
  {
    if !CapacityFreesUp(previous, current) {
      StillStuck(s.inventory, s.labels, s.pods, uid, current, s.who, s.ask);
    }
  }

  lemma NodeLeftFree(p: GpuPod, current: Option<GpuPod>) returns (n: string)
    requires CapacityFreesUp(Some(p), current)
    requires p.nodeName.Some? && current.Some? ==> current.value.nodeName.Some?
    ensures p.nodeName.Some? ==> p.nodeName.value == n
    ensures current.Some? ==> current.value.nodeName.Some? && current.value.nodeName.value != n
  {
    n := if p.nodeName.Some? then p.nodeName.value
         else if current.Some? then current.value.nodeName.value + "x" else "n";
  }

  /** On a node as large as the pod, the pod's own node or one it does not bind to, another
      ask of its size passes only once the pod has gone. */
  lemma GoneFromNode(p: GpuPod, current: Option<GpuPod>, uid: string, n: string) returns (s: Setting)
    requires SamePod(Some(p), current) && p.gpuCount >= 1 && (p.nodeName.Some? ==> p.nodeName.value == n)
    requires current.Some? ==> current.value.nodeName.Some? && current.value.nodeName.value != n
    ensures Helps(Some(p), current, uid, s)
  {
    var ask := Ask(p.gpuClass, p.gpuCount, None, true);
    LonePasses(Some(p), uid, n, uid + "x", ask);
    LonePasses(current, uid, n, uid + "x", ask);
    StoredLone(p, current, uid);
    s := Setting(map[p.gpuClass := map[n := p.gpuCount]], map[], Lone(Some(p), uid), uid + "x", ask);
  }

  lemma StoredLone(p: GpuPod, current: Option<GpuPod>, uid: string)
    ensures Find(Lone(Some(p), uid), uid) == Some(p)
    ensures Stored(Lone(Some(p), uid), uid, current) == Lone(current, uid)
  {}

  function Lone(record: Option<GpuPod>, uid: string): Records {
    if record.Some? then map[uid := record.value] else map[]
  }

  /** Beside one other pod, an ask of a one-node class as large as the node passes when
      that pod is neither on the node nor a claim. */
  lemma LonePasses(record: Option<GpuPod>, uid: string, n: string, who: string, ask: Ask)
    requires ask == Ask(ask.gpuClass, ask.gpus, None, true) && ask.gpus >= 1 && who != uid
    requires record.Some? ==> record.value.gpuClass == ask.gpuClass && record.value.gpuCount == ask.gpus
    ensures var free := FreeOf(map[ask.gpuClass := map[n := ask.gpus]], Lone(record, uid), ask.gpuClass);
      Passes(ask, who, free, map[], Lone(record, uid)) <==>
        record.None? || (record.value.nodeName.Some? && record.value.nodeName != Some(n))
  {
    var cls, pods := ask.gpuClass, Lone(record, uid);
    var nodes := map[n := ask.gpus - UsedOn(pods, pods.Keys, cls, n)];
    assert NodesLess(map[n := ask.gpus], pods, pods.Keys, cls) == nodes;
    assert FreeOf(map[cls := map[n := ask.gpus]], pods, cls) == Some(nodes);
    LoneUse(record, uid, cls, n, nodes, who);
    OneNode(ask, who, n, nodes, pods);
  }

  lemma LoneUse(record: Option<GpuPod>, uid: string, cls: string, n: string, nodes: Nodes, who: string)
    requires nodes.Keys == {n} && who != uid && (record.Some? ==> record.value.gpuClass == cls)
    ensures UsedOn(Lone(record, uid), Lone(record, uid).Keys, cls, n)
         == if record.Some? && record.value.nodeName == Some(n) then record.value.gpuCount else 0
    ensures Claimed(Lone(record, uid), cls, Some(nodes), map[], None, who)
         == if record.Some? && record.value.nodeName.None? then record.value.gpuCount else 0
  {
    var pods := Lone(record, uid);
    if record.Some? {
      assert n in nodes && pods.Keys == {uid};
      SumKeysOne(uid, ClaimOf(pods, cls, Some(nodes), map[], None, who));
      SumKeysOne(uid, OnNode(pods, cls, n));
      ClaimsIfUsable(pods[uid], cls, nodes, map[]);
      assert n in Usable(pods[uid].placement, nodes, map[]);
    }
  }

  lemma OneNode(ask: Ask, who: string, n: string, nodes: Nodes, pods: Records)
    requires nodes.Keys == {n} && ask.placement.None? && ask.bestEffort
    ensures Passes(ask, who, Some(nodes), map[], pods) <==>
      nodes[n] - Claimed(pods, ask.gpuClass, Some(nodes), map[], None, who) >= ask.gpus
  {
    assert Allowed(ask.placement, Some(nodes), map[]).None? && n in Usable(ask.placement, nodes, map[]);
  }

  // -- the candidates guard 5 holds -------------------------------------------------------------------------

  datatype Candidate = Candidate(ask: Ask, heldByNodeFit: bool, nextAttempt: int)

  const SHORT_RETRY_SECONDS := 30

  /** Held only while the ask really does not fit. */
  ghost predicate HeldRightly(
    candidates: map<string, Candidate>, inventory: FreeMap, labels: NodeLabels, pods: Records)
  {
    forall who <- candidates :: candidates[who].heldByNodeFit ==>
      !Passes(candidates[who].ask, who, FreeOf(inventory, pods, candidates[who].ask.gpuClass), labels, pods)
  }

  ghost predicate Wakes(c: Candidate, who: string, cls: string, inventory: FreeMap, labels: NodeLabels, pods: Records) {
    c.heldByNodeFit && c.ask.gpuClass == cls && Passes(c.ask, who, FreeOf(inventory, pods, cls), labels, pods)
  }

  function Due(c: Candidate, now: int): Candidate {
    c.(heldByNodeFit := false, nextAttempt := if now < c.nextAttempt then now else c.nextAttempt)
  }

  /** Every candidate of the class that was held and now passes, and no other, is
      released and made due. */
  ghost predicate Rejudged(
    before: map<string, Candidate>, after: map<string, Candidate>, done: set<string>, cls: string, now: int,
    inventory: FreeMap, labels: NodeLabels, pods: Records)
  {
    && after.Keys == before.Keys
    && forall who <- before ::
         after[who] == if who in done && Wakes(before[who], who, cls, inventory, labels, pods)
                       then Due(before[who], now) else before[who]
  }

  ghost predicate AnyWakes(
    before: map<string, Candidate>, done: set<string>, cls: string, inventory: FreeMap, labels: NodeLabels,
    pods: Records)
  {
    exists who <- done :: who in before && Wakes(before[who], who, cls, inventory, labels, pods)
  }

  lemma RejudgeOne(
    before: map<string, Candidate>, after: map<string, Candidate>, done: set<string>, uid: string, cls: string,
    now: int,
    inventory: FreeMap, labels: NodeLabels, pods: Records)
    requires uid in before && uid !in done
    requires Rejudged(before, after, done, cls, now, inventory, labels, pods)
    ensures after[uid] == before[uid]
    ensures var wakes := Wakes(before[uid], uid, cls, inventory, labels, pods);
      && Rejudged(before, if wakes then after[uid := Due(before[uid], now)] else after, done + {uid}, cls, now,
                  inventory, labels, pods)
      && (AnyWakes(before, done + {uid}, cls, inventory, labels, pods) <==>
        wakes || AnyWakes(before, done, cls, inventory, labels, pods))
  {
    if AnyWakes(before, done, cls, inventory, labels, pods) {
      var who :| who in done && who in before && Wakes(before[who], who, cls, inventory, labels, pods);
      assert who in done + {uid};
    }
    assert uid in done + {uid};
  }

  /** What re-judging a class does to a candidate: one held that now passes is held no more
      and tried at the sooner of its own clock and now; every other stays as it was. */
  lemma ReleasedExactly(
    before: map<string, Candidate>, after: map<string, Candidate>, cls: string, now: int, inventory: FreeMap,
    labels: NodeLabels, pods: Records, who: string)
    requires Rejudged(before, after, before.Keys, cls, now, inventory, labels, pods) && who in before
    ensures var c, d := before[who], after[who];
      if c.heldByNodeFit && c.ask.gpuClass == cls && Passes(c.ask, who, FreeOf(inventory, pods, cls), labels, pods)
      then
        && d.ask == c.ask && !d.heldByNodeFit
        && d.nextAttempt <= now && d.nextAttempt <= c.nextAttempt && d.nextAttempt in {now, c.nextAttempt}
      else
        d == c
  {
  }

  /** A release of the one class a change concerns leaves no candidate held wrongly. */
  lemma RejudgedHoldRightly(
    before: map<string, Candidate>, after: map<string, Candidate>, now: int,
    inventory: FreeMap, labels: NodeLabels, pods: Records, uid: string, record: Option<GpuPod>)
    requires uid in pods && SamePod(Find(pods, uid), record)
    requires HeldRightly(before, inventory, labels, pods)
    requires Rejudged(before, after, before.Keys, pods[uid].gpuClass, now, inventory, labels, Stored(pods, uid, record))
    ensures HeldRightly(after, inventory, labels, Stored(pods, uid, record))
  {
    forall who | who in after && after[who].heldByNodeFit
      ensures !Passes(after[who].ask, who, FreeOf(inventory, Stored(pods, uid, record), after[who].ask.gpuClass),
        labels,
        Stored(pods, uid, record))
    {
      if after[who].ask.gpuClass != pods[uid].gpuClass {
        StillStuck(inventory, labels, pods, uid, record, who, before[who].ask);
      }
    }
  }

  lemma TakingHoldsRightly(
    candidates: map<string, Candidate>, inventory: FreeMap, labels: NodeLabels, pods: Records, uid: string,
    record: Option<GpuPod>)
    requires !CapacityFreesUp(Find(pods, uid), record) && SamePod(Find(pods, uid), record)
    requires HeldRightly(candidates, inventory, labels, pods)
    ensures HeldRightly(candidates, inventory, labels, Stored(pods, uid, record))
  {
    forall who | who in candidates && candidates[who].heldByNodeFit
      ensures !Passes(candidates[who].ask, who,
        FreeOf(inventory, Stored(pods, uid, record), candidates[who].ask.gpuClass), labels, Stored(pods, uid, record))
    {
      StillStuck(inventory, labels, pods, uid, record, who, candidates[who].ask);
    }
  }

  class FitGuard {
    const accounts: NodeAccounts
    var candidates: map<string, Candidate>

    ghost predicate Valid()
      reads this, accounts
    {
      accounts.Valid()
    }

    ghost predicate HeldDoNotFit()
      reads this, accounts
    {
      HeldRightly(candidates, accounts.inventory, accounts.labels, accounts.pods)
    }

    constructor (nodeAccounts: NodeAccounts)
      requires nodeAccounts.Valid()
      ensures accounts == nodeAccounts && Valid() && HeldDoNotFit() && candidates == map[]
    {
      accounts, candidates := nodeAccounts, map[];
    }

    /** The guard-5 half of judging a candidate just read again: hold it, or let it on. */
    method HoldOnFit(uid: string, now: int) returns (held: bool)
      requires Valid() && uid in candidates
      modifies `candidates
      ensures Valid()
      ensures held <==> !Passes(old(candidates)[uid].ask, uid,
        FreeOf(accounts.inventory, accounts.pods, old(candidates)[uid].ask.gpuClass), accounts.labels, accounts.pods)
      ensures candidates == if held
        then old(candidates)[uid := Candidate(old(candidates)[uid].ask, true, now + SHORT_RETRY_SECONDS)]
                            else old(candidates)
      ensures old(HeldDoNotFit()) ==> HeldDoNotFit()
    {
      var candidate := candidates[uid];
      var fit := JudgeFit(accounts, uid, candidate.ask);
      FitsExactly(candidate.ask, uid, Find(accounts.freeByNodeClass, candidate.ask.gpuClass), accounts.labels,
        accounts.pods, fit);
      if fit.Some? && !fit.value.Fits(candidate.ask.gpus) {
        candidates := candidates[uid := candidate.(nextAttempt := now + SHORT_RETRY_SECONDS, heldByNodeFit := true)];
        return true;
      }
      held := false;
    }

    /** GPUs of a class came free: make due every candidate held that now fits. */
    method RetryNodeFitHolds(cls: string, now: int) returns (woken: bool)
      requires Valid()
      modifies `candidates
      ensures Valid()
      ensures Rejudged(old(candidates), candidates, old(candidates).Keys, cls, now, accounts.inventory,
        accounts.labels, accounts.pods)
      ensures woken <==> AnyWakes(old(candidates), old(candidates).Keys, cls, accounts.inventory, accounts.labels,
        accounts.pods)
    {
      woken := false;
      var todo := candidates.Keys;
      ghost var before, inventory, labels, pods := candidates, accounts.inventory, accounts.labels, accounts.pods;
      while todo != {}
        invariant todo <= before.Keys
        invariant Rejudged(before, candidates, before.Keys - todo, cls, now, inventory, labels, pods)
        invariant woken <==> AnyWakes(before, before.Keys - todo, cls, inventory, labels, pods)
      {
        var uid :| uid in todo;
        RejudgeOne(before, candidates, before.Keys - todo, uid, cls, now, inventory, labels, pods);
        assert before.Keys - todo + {uid} == before.Keys - (todo - {uid});
        todo := todo - {uid};
        var candidate := candidates[uid];
        if !candidate.heldByNodeFit || candidate.ask.gpuClass != cls {
          continue;
        }
        var fit := JudgeFit(accounts, uid, candidate.ask);
        FitsExactly(candidate.ask, uid, Find(accounts.freeByNodeClass, cls), labels, pods, fit);
        if fit.Some? && !fit.value.Fits(candidate.ask.gpus) {
          continue;
        }
        candidates := candidates[uid := Due(candidate, now)];
        woken := true;
      }
      assert before.Keys - {} == before.Keys;
    }

    /** What the pod watch reports of a tolerated pod. */
    method NoteGpuPod(uid: string, record: Option<GpuPod>, now: int) returns (run: bool)
      requires Valid()
      modifies `candidates, accounts
      ensures Valid() && accounts.pods == Stored(old(accounts.pods), uid, record)
      ensures accounts.inventory == old(accounts.inventory) && accounts.labels == old(accounts.labels)
      ensures old(HeldDoNotFit()) && SamePod(Find(old(accounts.pods), uid), record) ==> HeldDoNotFit()
      ensures candidates.Keys == old(candidates.Keys)
      ensures forall who <- candidates :: candidates[who] != old(candidates)[who] ==>
        run && candidates[who] == Due(old(candidates)[who], now)
    {
      ghost var before, inventory, labels, pods := candidates, accounts.inventory, accounts.labels, accounts.pods;
      var previous := accounts.SetGpuPod(uid, record, now);
      if previous.None? || !CapacityFreesUp(previous, record) {
        if HeldRightly(before, inventory, labels, pods) && SamePod(previous, record) {
          TakingHoldsRightly(before, inventory, labels, pods, uid, record);
        }
        return false;
      }
      run := RetryNodeFitHolds(previous.value.gpuClass, now);
      if HeldRightly(before, inventory, labels, pods) && SamePod(previous, record) {
        RejudgedHoldRightly(before, candidates, now, inventory, labels, pods, uid, record);
      }
    }

    /** Records a pod just admitted as a claim, unless it has already been
        released, is tracked by the watch, or is bound. */
    method NoteAdmitted(grant: Grant, bound: bool, admitted: map<string, nat>, now: int)
      requires Valid()
      modifies accounts
      ensures Valid() && accounts.inventory == old(accounts.inventory) && accounts.labels == old(accounts.labels)
      ensures accounts.pods == if grant.uid in admitted && grant.uid !in old(accounts.pods) && !bound
        then old(accounts.pods)[grant.uid := GpuPod(grant.namespace, grant.name, grant.ask.gpuClass, grant.ask.gpus,
                                                    None, grant.ask.placement, Some(grant.reservationId))]
        else old(accounts.pods)
      ensures old(HeldDoNotFit()) ==> HeldDoNotFit()
    {
      if grant.uid !in admitted {
        return;
      }
      if grant.uid in accounts.pods || bound {
        return;
      }
      ghost var inventory, labels, pods := accounts.inventory, accounts.labels, accounts.pods;
      var _ := accounts.SetGpuPod(grant.uid, Some(grant.Claim()), now);
      if HeldRightly(candidates, inventory, labels, pods) {
        TakingHoldsRightly(candidates, inventory, labels, pods, grant.uid, Some(grant.Claim()));
      }
    }
  }
}
