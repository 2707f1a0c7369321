/** `k8s_2t.py`: control planes before nodes before the sync, and what one pass without a
    failing request adds up to. */
module KubernetesPlan {
  import opened Prelude
  import opened Machines
  import opened Database
  import opened Queries
  import opened Scheduling
  import opened PlanRun
  import opened PlanSafety
  import PlanHazards
  import PlanHistory
  import opened Placement
  import opened Plan
  import Choice
  import opened GroupFiles
  import SyncHistory
  import opened Sync

  /** A pass waits for machines, ends with the number of synced ones, or is stopped by an
      exception. */
  datatype Pass = Waiting | Synced(count: nat) | Stopped

  // ---------- conservation ----------

  /** Enough machines, every scheduled one can be listed, every MAC is one. */
  ghost predicate Ready(f: Fleet, expected: nat) {
    && Coherent(f) && RolePartition(f) && MacsValid(f)
    && AllHaveBoot(f, ControlPlanes(f)) && AllHaveBoot(f, Nodes(f))
    && (|ControlPlanes(f)| >= expected || |Available(f)| >= expected)
  }

  /** In any run, with reports at any moment, a pass finds the fleet coherent and every MAC
      valid: it can complete exactly if the roles are partitioned, the scheduled machines
      have a boot interface and there are enough machines. */
  lemma RunIsReadyIff(expected: nat, ss: seq<State>, evs: seq<Event>, k: nat)
    requires PlanHazards.AnyRun(expected, ss, evs) && ss[0] == INITIAL && k < |ss|
    ensures var f := ss[k].fleet;
      Ready(f, expected) <==>
      && RolePartition(f) && AllHaveBoot(f, ControlPlanes(f)) && AllHaveBoot(f, Nodes(f))
      && (|ControlPlanes(f)| >= expected || |Available(f)| >= expected)
  {
    hide PlanHazards.AnyRun, Coherent, RolePartition, MacsValid, AllHaveBoot, ControlPlanes, Nodes, Available;
    PlanHistory.EveryRunIsBounded(expected, ss, evs, k);
    PlanHistory.EveryRunIsAddressed(expected, ss, evs, k);
    AddressedMacs(ss[k].fleet);
  }

  /** Every machine with a boot interface ends up in one of the two roles; control planes
      come from the smallest listed MACs, and only if there were too few. */
  ghost predicate Conserved(f: Fleet, h: Fleet, expected: nat) {
    && Available(h) == {} && WithBoot(h) == WithBoot(f)
    && ControlPlanes(h) !! Nodes(h) && ControlPlanes(h) + Nodes(h) == WithBoot(f)
    && (if |ControlPlanes(f)| >= expected then ControlPlanes(h) == ControlPlanes(f) else SmallestChosen(f, h, expected))
    && Nodes(f) <= Nodes(h)
  }

  ghost predicate SmallestChosen(f: Fleet, h: Fleet, expected: nat) {
    exists us, listed :: Chosen(f, us, listed, expected) && ControlPlanes(h) == ControlPlanes(f) + Owners(f, MacList(InOrder(listed))[..expected])
                         && |ControlPlanes(h)| == |ControlPlanes(f)| + expected
  }

  /** What a placement does to the views. */
  ghost predicate Moved(f: Fleet, g: Fleet, owners: set<string>, controlPlane: bool) {
    && owners <= Available(f) && owners !! ControlPlanes(f) && owners !! Nodes(f)
    && WithBoot(g) == WithBoot(f) && Available(g) == Available(f) - owners
    && ControlPlanes(g) == ControlPlanes(f) + (if controlPlane then owners else {})
    && Nodes(g) == Nodes(f) + (if controlPlane then {} else owners)
  }

  /** One placement: the owners of the n smallest listed MACs, n of them. */
  lemma PlacementEffect(f: Fleet, g: Fleet, n: nat, roles: seq<Role>) returns (us: seq<string>, listed: seq<Nic>, owners: set<string>)
    requires Coherent(f) && RolePartition(f) && SmallestPlaced(f, g, n, roles) && (roles == CONTROL_PLANE_ROLES || roles == NODE_ROLES)
    ensures Chosen(f, us, listed, n) && n <= |listed| && owners == Owners(f, MacList(InOrder(listed))[..n]) && |owners| == n
    ensures Coherent(g) && RolePartition(g) && Placed(f, g, owners, roles)
    ensures Moved(f, g, owners, roles == CONTROL_PLANE_ROLES)
  {
    hide *;
    us, listed := ChosenBy(f, g, n, roles);
    Choice.ChosenMeans(f, us, listed, n);
    var macs := MacList(InOrder(listed))[..n];
    owners := Owners(f, macs);
    ListedArePending(f, us, listed, n);
    PostAllPlaces(f, macs, roles);
    PlacedViews(f, g, owners, roles);
    Choice.ChoosesThatMany(f, us, listed, n);
    Choice.ChosenByIs(f, listed, n);
    HasMoved(f, g, owners, roles == CONTROL_PLANE_ROLES);
  }

  lemma HasMoved(f: Fleet, g: Fleet, owners: set<string>, controlPlane: bool)
    requires owners <= Available(f) && owners !! ControlPlanes(f) && owners !! Nodes(f)
    requires WithBoot(g) == WithBoot(f) && Available(g) == Available(f) - owners
    requires ControlPlanes(g) == ControlPlanes(f) + (if controlPlane then owners else {})
    requires Nodes(g) == Nodes(f) + (if controlPlane then {} else owners)
    ensures Moved(f, g, owners, controlPlane)
  {}

  lemma ChosenBy(f: Fleet, g: Fleet, n: nat, roles: seq<Role>) returns (us: seq<string>, listed: seq<Nic>)
    requires SmallestPlaced(f, g, n, roles)
    ensures Chosen(f, us, listed, n) && g == PostAll(f, MacList(InOrder(listed))[..n], roles)
  {
    us, listed :| Chosen(f, us, listed, n) && g == PostAll(f, MacList(InOrder(listed))[..n], roles);
  }

  /** The machines of a coherent, partitioned fleet with a boot interface: available ones,
      control planes and nodes, each in one group. */
  lemma ThreeGroups(f: Fleet)
    requires RolePartition(f) && AllHaveBoot(f, ControlPlanes(f)) && AllHaveBoot(f, Nodes(f))
    ensures WithBoot(f) == Available(f) + ControlPlanes(f) + Nodes(f)
    ensures Available(f) !! ControlPlanes(f) && Available(f) !! Nodes(f) && ControlPlanes(f) !! Nodes(f)
  {
    forall u | u in f.hosts
      ensures f.hosts[u].roles == multiset{} || RunsControlPlane(f.hosts[u]) || KubernetesNode in f.hosts[u].roles
      ensures f.hosts[u].roles == multiset{} ==> !RunsControlPlane(f.hosts[u]) && KubernetesNode !in f.hosts[u].roles
      ensures !(RunsControlPlane(f.hosts[u]) && KubernetesNode in f.hosts[u].roles)
    {
      Kinds(f.hosts[u]);
      NoneIsNone(f.hosts[u]);
    }
    hide RunsControlPlane, HasNoRole, IsControlPlane, IsNode, HasBoot;
  }

  lemma BootSubset(f: Fleet, s: set<string>)
    requires s <= WithBoot(f)
    ensures AllHaveBoot(f, s)
  {}

  lemma PassConserves(f: Fleet, g: Fleet, h: Fleet, expected: nat, a: Tried<bool>, b: Tried<nat>)
    requires Ready(f, expected) && BudgetMet(f, g, expected, a) && a == Done(true) && EverythingPlaced(g, h, b)
    ensures b.Done? && Conserved(f, h, expected) && Coherent(h)
    ensures AllHaveBoot(h, ControlPlanes(h)) && AllHaveBoot(h, Nodes(h))
    ensures |ControlPlanes(h)| + |Nodes(h)| == |WithBoot(f)|
    ensures MacsValid(h)
  {
    hide *;
    ReadySays(f, expected);
    ThreeGroups(f);
    BudgetSays(f, g, expected, a);
    if |ControlPlanes(f)| >= expected {
      SecondHalf(f, g, h, expected, b);
    } else {
      var us, listed, owners := PlacementEffect(f, g, expected, CONTROL_PLANE_ROLES);
      PlacedMacs(f, g, owners, CONTROL_PLANE_ROLES);
      FirstHalf(f, g, owners);
      SecondHalf(f, g, h, expected, b);
      ChosenFirst(f, h, us, listed, expected);
    }
    IsConserved(f, h, expected);
    BootSubset(h, ControlPlanes(h));
    BootSubset(h, Nodes(h));
  }

  lemma ReadySays(f: Fleet, expected: nat)
    requires Ready(f, expected)
    ensures Coherent(f) && RolePartition(f) && MacsValid(f)
    ensures AllHaveBoot(f, ControlPlanes(f)) && AllHaveBoot(f, Nodes(f))
    ensures |ControlPlanes(f)| >= expected || |Available(f)| >= expected
  {}

  lemma BudgetSays(f: Fleet, g: Fleet, expected: nat, a: Tried<bool>)
    requires BudgetMet(f, g, expected, a) && a == Done(true)
    ensures if |ControlPlanes(f)| >= expected then g == f else SmallestPlaced(f, g, expected, CONTROL_PLANE_ROLES)
  {}

  lemma PlacedMacs(f: Fleet, g: Fleet, owners: set<string>, roles: seq<Role>)
    requires Placed(f, g, owners, roles) && MacsValid(f)
    ensures MacsValid(g)
  {}

  lemma FirstHalf(f: Fleet, g: Fleet, owners: set<string>)
    requires WithBoot(f) == Available(f) + ControlPlanes(f) + Nodes(f)
    requires Moved(f, g, owners, true)
    ensures ControlPlanes(g) == ControlPlanes(f) + owners && owners !! ControlPlanes(f)
    ensures AllHaveBoot(g, ControlPlanes(g)) && AllHaveBoot(g, Nodes(g)) && Nodes(g) == Nodes(f) && WithBoot(g) == WithBoot(f)
  {
    BootSubset(g, ControlPlanes(g));
    BootSubset(g, Nodes(g));
  }

  /** The node pass over what the control plane pass left. */
  lemma SecondHalf(f: Fleet, g: Fleet, h: Fleet, expected: nat, b: Tried<nat>)
    requires Coherent(g) && RolePartition(g) && MacsValid(g) && EverythingPlaced(g, h, b)
    requires AllHaveBoot(g, ControlPlanes(g)) && AllHaveBoot(g, Nodes(g)) && WithBoot(g) == WithBoot(f) && Nodes(g) == Nodes(f)
    ensures b.Done? && Coherent(h) && MacsValid(h)
    ensures Available(h) == {} && WithBoot(h) == WithBoot(f) && ControlPlanes(h) == ControlPlanes(g) && Nodes(f) <= Nodes(h)
    ensures ControlPlanes(h) !! Nodes(h) && ControlPlanes(h) + Nodes(h) == WithBoot(f)
  {
    hide *;
    EverythingSays(g, h, b);
    ThreeGroups(g);
    NotControlPlane();
    var _, _, owners := PlacementEffect(g, h, |Available(g)|, NODE_ROLES);
    PlacedMacs(g, h, owners, NODE_ROLES);
    AllMoved(g, h, owners);
  }

  lemma AllMoved(g: Fleet, h: Fleet, owners: set<string>)
    requires Moved(g, h, owners, false) && |owners| == |Available(g)| && WithBoot(g) == Available(g) + ControlPlanes(g) + Nodes(g)
    requires ControlPlanes(g) !! Nodes(g)
    ensures Available(h) == {} && WithBoot(h) == WithBoot(g) && ControlPlanes(h) == ControlPlanes(g) && Nodes(g) <= Nodes(h)
    ensures ControlPlanes(h) !! Nodes(h) && ControlPlanes(h) + Nodes(h) == WithBoot(g)
  {
    hide Available, ControlPlanes, Nodes, WithBoot;
    WholeSubset(owners, Available(g));
  }

  lemma NotControlPlane()
    ensures NODE_ROLES != CONTROL_PLANE_ROLES
  {
    assert |CONTROL_PLANE_ROLES| != |NODE_ROLES|;
  }

  lemma EverythingSays(g: Fleet, h: Fleet, b: Tried<nat>)
    requires EverythingPlaced(g, h, b) && AllHaveBoot(g, Nodes(g))
    ensures b == Done(|Nodes(g)| + |Available(g)|) && SmallestPlaced(g, h, |Available(g)|, NODE_ROLES)
  {}

  lemma WholeSubset<T>(a: set<T>, b: set<T>)
    requires a <= b && |a| == |b|
    ensures a == b
  {
    if a != b {
      var x :| x in b && x !in a;
      SubsetIsSmaller(a, b - {x});
    }
  }

  lemma ChosenFirst(f: Fleet, h: Fleet, us: seq<string>, listed: seq<Nic>, expected: nat)
    requires Chosen(f, us, listed, expected) && ControlPlanes(h) == ControlPlanes(f) + Owners(f, MacList(InOrder(listed))[..expected])
    requires |Owners(f, MacList(InOrder(listed))[..expected])| == expected && Owners(f, MacList(InOrder(listed))[..expected]) !! ControlPlanes(f)
    ensures SmallestChosen(f, h, expected)
  {
    hide ControlPlanes, Owners, InOrder, Enumerates, AnyNics;
  }

  lemma IsConserved(f: Fleet, h: Fleet, expected: nat)
    requires Available(h) == {} && WithBoot(h) == WithBoot(f)
    requires ControlPlanes(h) !! Nodes(h) && ControlPlanes(h) + Nodes(h) == WithBoot(f) && Nodes(f) <= Nodes(h)
    requires if |ControlPlanes(f)| >= expected then ControlPlanes(h) == ControlPlanes(f) else SmallestChosen(f, h, expected)
    ensures Conserved(f, h, expected)
  {}

  // ---------- the pass ----------

  class Kubernetes2Tiers {
    const controlPlane: EtcdMemberKubernetesControlPlane
    const node: KubernetesNode
    const sync: ConfigSyncSchedules

    constructor (api: Api, dir: MatchboxDirectory, expected: nat, peerPort: nat)
      ensures controlPlane.api == api && controlPlane.expected == expected && Wired()
      ensures sync.dir == dir
    {
      controlPlane := new EtcdMemberKubernetesControlPlane(api, expected);
      node := new KubernetesNode(api, expected);
      sync := new ConfigSyncSchedules(api, dir, peerPort, expected);
    }

    /** All three parts talk to the same API and plan for the same number. */
    ghost predicate Wired() {
      && node.api == controlPlane.api && sync.api == controlPlane.api
      && node.expected == controlPlane.expected && sync.expected == controlPlane.expected
    }

    /** One pass of `apply`; the caller repeats it while it waits. Whatever fails, it is
        a run of the step system. If nothing fails and there are enough machines, none is
        left available and the count is every machine with a boot interface. It waits, with
        nothing written, exactly if the control plane pass answered False, and otherwise is
        stopped by an exception that survived all tries. */
    method Apply(ghost f: Fleet) returns (r: Pass, ghost h: Fleet)
      requires Wired() && Valid(sync.api.repo.db.committed) && f == View(sync.api.repo.db.committed)
      modifies sync.api.repo.db, sync.dir, sync.api`failures, sync.api`queries
      ensures Valid(sync.api.repo.db.committed) && h == View(sync.api.repo.db.committed)
      ensures Reaches(sync.expected, State(f, Idle, Selected(old(sync.dir.groups))), State(h, Idle, Selected(sync.dir.groups)))
      ensures sync.api.reliable && Ready(f, sync.expected) ==> r == Synced(|WithBoot(f)|) && Conserved(f, h, sync.expected)
      ensures sync.api.reliable ==> (r == Waiting <==> TooFewFor(f, sync.expected)) && (r == Waiting ==> h == f)
      ensures sync.api.reliable && Unlistable(f, sync.expected) ==> r == Stopped && h == f && sync.dir.groups == old(sync.dir.groups)
      ensures r == Waiting ==> Waits(h, sync.expected, old(sync.api.failures), sync.api.failures)
      ensures r == Waiting ==> sync.dir.groups == old(sync.dir.groups) && sync.dir.writes == old(sync.dir.writes)
      ensures r == Waiting ==> sync.api.queries[NODE_ROLES] == old(sync.api.queries[NODE_ROLES])
      ensures r != Waiting && sync.api.queries[NODE_ROLES] == old(sync.api.queries[NODE_ROLES]) ==>
                r == Stopped && sync.api.failures == old(sync.api.failures) + Others(5) && sync.dir.groups == old(sync.dir.groups)
      ensures r.Synced? ==> BothCurrent(h, sync.dir.groups, sync.peerPort)
      ensures r.Synced? && StartsSafe(sync.expected, State(f, Idle, Selected(old(sync.dir.groups)))) ==> BothExact(h, Selected(sync.dir.groups))
    {
      hide *;
      WiredSays();
      ghost var t0, was, e := sync.api.repo.db.committed, sync.dir.groups, sync.expected;
      ghost var known, asked := sync.api.failures, sync.api.queries;
      ghost var s0 := State(f, Idle, Selected(was));
      var a, tries := controlPlane.Apply(5, Selected(was));
      QueriesAre(asked, CONTROL_PLANE_ROLES, tries);
      ghost var t1 := sync.api.repo.db.committed;
      PassStart(e, s0, t0, t1, if a == Done(true) then NodesDue else Idle, Selected(was));
      h := View(t1);
      if sync.api.reliable { FirstAnswers(f, h, e, a); }
      if a != Done(true) {
        assert a.Done? ==> a == Done(a.value) && !a.value;
        if a.Done? { IsWaiting(h, e, known, sync.api.failures, tries); }
        return if a == Done(false) then Waiting else Stopped, h;
      }
      var b, again := node.Apply(5, Selected(was));
      QueriesAre(asked + Times(CONTROL_PLANE_ROLES, tries), NODE_ROLES, again);
      ghost var t2 := sync.api.repo.db.committed;
      ghost var g := h;
      h := View(t2);
      PassOn(e, s0, t1, t2, NodesDue, if b.Done? then SyncDue else NodesDue, Selected(was));
      if sync.api.reliable && Ready(f, e) { PassConserves(f, g, h, e, a, b); }
      if sync.api.reliable && Unlistable(f, e) { NodesUnread(f, g, h, e, a, b); }
      if !b.Done? {
        return Stopped, h;
      }
      if sync.api.reliable && Ready(f, e) { ReadableAfter(h); }
      var n := sync.Apply(10, h);
      PassEnds(e, s0, h, was, sync.dir.groups, n.Done?);
      if StartsSafe(e, s0) { ExactAfter(e, s0, t2, was, sync.dir.groups, n.Done?); }
      r := if n.Done? then Synced(n.value) else Stopped;
    }

    lemma WiredSays()
      requires Wired()
      ensures node.api == controlPlane.api && sync.api == controlPlane.api
      ensures node.expected == controlPlane.expected && sync.expected == controlPlane.expected
    {}
  }

  ghost predicate StartsSafe(expected: nat, s: State) {
    Inv(expected, s) && FilesInv(s)
  }

  /** A control plane cannot be listed, or there are neither enough of them nor enough free machines. */
  ghost predicate TooFewFor(f: Fleet, expected: nat) {
    !AllHaveBoot(f, ControlPlanes(f)) || (|ControlPlanes(f)| < expected && |Available(f)| < expected)
  }

  /** There are enough control planes, and a node cannot be listed. */
  ghost predicate Unlistable(f: Fleet, expected: nat) {
    AllHaveBoot(f, ControlPlanes(f)) && |ControlPlanes(f)| >= expected && !AllHaveBoot(f, Nodes(f))
  }

  /** The control plane pass ended without an exception after at most four that were passed
      on; either no further reply failed and there are too few machines, or a further reply
      failed that reads as False. */
  ghost predicate Waits(h: Fleet, expected: nat, was: seq<Failure>, now: seq<Failure>) {
    exists tries: nat :: tries < 5 && DoneAfter(h, expected, was + Others(tries), now, false)
  }

  lemma IsWaiting(h: Fleet, expected: nat, was: seq<Failure>, now: seq<Failure>, tries: nat)
    requires 0 < tries <= 5 && DoneAfter(h, expected, was + Others(tries - 1), now, false)
    ensures Waits(h, expected, was, now)
  {
    hide DoneAfter, Others;
    var k: nat := tries - 1;
    assert DoneAfter(h, expected, was + Others(k), now, false);
  }

  lemma QueriesAre(asked: multiset<seq<Role>>, roles: seq<Role>, n: nat)
    ensures roles == CONTROL_PLANE_ROLES ==> (asked + Times(roles, n))[NODE_ROLES] == asked[NODE_ROLES]
    ensures (asked + Times(roles, n))[roles] == asked[roles] + n
  {
    NotControlPlane();
  }

  /** What the control plane pass answers when no request fails. */
  lemma FirstAnswers(f: Fleet, g: Fleet, expected: nat, a: Tried<bool>)
    requires BudgetMet(f, g, expected, a)
    ensures a.Done? && (a == Done(false) <==> TooFewFor(f, expected)) && (a == Done(false) ==> g == f)
    ensures Ready(f, expected) || Unlistable(f, expected) ==> a == Done(true)
  {
    hide AllHaveBoot, ControlPlanes, Available, Nodes, Coherent, RolePartition, MacsValid, SmallestPlaced;
  }

  lemma NodesUnread(f: Fleet, g: Fleet, h: Fleet, expected: nat, a: Tried<bool>, b: Tried<nat>)
    requires Unlistable(f, expected) && BudgetMet(f, g, expected, a) && EverythingPlaced(g, h, b)
    ensures !b.Done? && h == f
  {
    hide AllHaveBoot, ControlPlanes, Available, Nodes, SmallestPlaced;
  }

  lemma PassStart(expected: nat, s0: State, t0: Tables, t1: Tables, phase: Phase, files: Files)
    requires s0 == State(View(t0), Idle, files) && Reaches(expected, StateOf(t0, Idle, files), StateOf(t1, phase, files))
    ensures Reaches(expected, s0, State(View(t1), phase, files)) && Reaches(expected, s0, State(View(t1), Idle, files))
  {
    hide Reaches, View;
    StopFrom(expected, s0, t1, phase, files);
  }

  lemma PassOn(expected: nat, s0: State, t1: Tables, t2: Tables, from: Phase, phase: Phase, files: Files)
    requires Reaches(expected, s0, State(View(t1), from, files)) && Reaches(expected, StateOf(t1, from, files), StateOf(t2, phase, files))
    ensures Reaches(expected, s0, State(View(t2), phase, files)) && Reaches(expected, s0, State(View(t2), Idle, files))
  {
    hide Reaches, View;
    ReachesOn(expected, s0, StateOf(t1, from, files), StateOf(t2, phase, files));
    StopFrom(expected, s0, t2, phase, files);
  }

  lemma PassEnds(expected: nat, s0: State, h: Fleet, was: map<(Marker, nat), Group>, now: map<(Marker, nat), Group>, finished: bool)
    requires Reaches(expected, s0, State(h, SyncDue, Selected(was))) && SyncedFrom(expected, h, was, now, finished)
    ensures Reaches(expected, s0, State(h, Idle, Selected(now)))
  {
    hide Reaches, Selected, FilesInv, BothExact, Coherent;
    var a, b := State(h, SyncDue, Selected(was)), State(h, if finished then Idle else SyncDue, Selected(now));
    ReachesOn(expected, s0, a, b);
    if !finished { ReachesNext(expected, s0, b, GiveUp, State(h, Idle, Selected(now))); }
  }

  lemma ExactAfter(expected: nat, s0: State, t: Tables, was: map<(Marker, nat), Group>, now: map<(Marker, nat), Group>, finished: bool)
    requires StartsSafe(expected, s0) && Valid(t) && Reaches(expected, s0, State(View(t), SyncDue, Selected(was)))
    requires SyncedFrom(expected, View(t), was, now, finished)
    ensures finished ==> BothExact(View(t), Selected(now))
  {
    hide Reaches, Selected, FilesInv, BothExact, Coherent, View, Valid, Inv;
    ViewCoherent(t);
    SyncHistory.ReachesFits(expected, s0, State(View(t), SyncDue, Selected(was)));
  }

  lemma ReadableAfter(h: Fleet)
    requires MacsValid(h) && AllHaveBoot(h, ControlPlanes(h)) && AllHaveBoot(h, Nodes(h))
    ensures BothReadable(h)
  {}

  // ---------- which machines are chosen ----------

  /** With one interface on each available machine the choice does not depend on the order
      of the rows. */
  lemma ChoiceForgetsOrder(f: Fleet, g: Fleet, h: Fleet, n: nat, roles: seq<Role>)
    requires Coherent(f) && SmallestPlaced(f, g, n, roles) && SmallestPlaced(f, h, n, roles)
    requires forall u, a, b :: u in Available(f) && a in f.hosts[u].nics && b in f.hosts[u].nics ==> a == b
    ensures g == h
  {
    hide *;
    var us, l := ChosenBy(f, g, n, roles);
    var vs, k := ChosenBy(f, h, n, roles);
    Choice.ChosenMeans(f, us, l, n);
    Choice.ChosenMeans(f, vs, k, n);
    OneListing(f, us, l, vs, k);
  }

  lemma OneListing(f: Fleet, us: seq<string>, l: seq<Nic>, vs: seq<string>, k: seq<Nic>)
    requires Coherent(f) && Enumerates(us, Available(f)) && AnyNics(f, us, l) && Enumerates(vs, Available(f)) && AnyNics(f, vs, k)
    requires forall u, a, b :: u in Available(f) && a in f.hosts[u].nics && b in f.hosts[u].nics ==> a == b
    ensures InOrder(l) == InOrder(k)
  {
    OnlyNics(f, us, l);
    OnlyNics(f, vs, k);
    hide Available, AnyNics, HasBoot;
    SameListing(f, Available(f), us, l, vs, k);
  }

  lemma OnlyNics(f: Fleet, us: seq<string>, l: seq<Nic>)
    requires Enumerates(us, Available(f)) && AnyNics(f, us, l)
    requires forall u, a, b :: u in Available(f) && a in f.hosts[u].nics && b in f.hosts[u].nics ==> a == b
    ensures BootNics(f, us, l)
  {
    forall i | 0 <= i < |us| ensures us[i] in f.hosts && HasBoot(f.hosts[us[i]]) && l[i] == BootNic(f.hosts[us[i]]) {
      assert us[i] in us;
    }
  }
}
