/** The plan process as a step system over the fleet. One step is one request: a
    discovery report (from anyone, at any time), a read or a POST of the plan, one part
    of a sync; any request may fail, before or after it took effect, and the process may
    stop anywhere. */
module PlanRun {
  import opened Prelude
  import opened Machines
  import opened Queries
  import opened Scheduling

  /** Which series of group files. */
  datatype Marker = ControlPlaneGroup | NodeGroup

  datatype Phase =
    | Idle
    | Short
    | PostingControlPlanes(todo: seq<string>)
    | NodesDue
    | NodesCounted
    | PostingNodes(todo: seq<string>)
    | SyncDue
    | NodeSyncDue
    | NotifyDue

  /** `files` are the group files of matchbox: the MAC that file number i of a series selects. */
  datatype State = State(fleet: Fleet, phase: Phase, files: map<(Marker, nat), string>)

  /** A POST whose answer was lost may or may not have been committed. */
  datatype Outcome = Returned | Lost(committed: bool)

  datatype Event =
    | Discovery(post: Post)
    | CountControlPlanes
    | FetchForControlPlanes(us: seq<string>, listed: seq<Nic>)
    | PostControlPlane(outcome: Outcome)
    | ControlPlanesPosted
    | CountNodes
    | FetchForNodes(us: seq<string>, listed: seq<Nic>)
    | PostNode(outcome: Outcome, next: Phase)
    | NodesPosted
    | NodesSkipped
    | Retried
    | SyncControlPlanes(us: seq<string>, listed: seq<Nic>, written: nat)
    | SyncNodes(us: seq<string>, listed: seq<Nic>, written: nat)
    | Notified
    | GiveUp

  function MacOf(n: Nic): string { n.mac }

  function MacList(l: seq<Nic>): (r: seq<string>)
    ensures |r| == |l| && forall i :: 0 <= i < |l| ==> r[i] == l[i].mac
  {
    seq(|l|, i requires 0 <= i < |l| => l[i].mac)
  }

  /** The order in which the plan works through a listing. */
  function InOrder(l: seq<Nic>): (r: seq<Nic>)
    ensures |r| == |l|
  {
    SameLength(SortBy(MacOf, l), l);
    SortBy(MacOf, l)
  }

  lemma InOrderPermutes(l: seq<Nic>)
    ensures multiset(InOrder(l)) == multiset(l) && SortedBy(MacOf, InOrder(l))
  {}

  function LowerChar(c: char): char {
    if 'A' <= c <= 'Z' then (c as int + 32) as char else c
  }

  function Lower(s: string): (r: string)
    ensures |r| == |s| && forall i :: 0 <= i < |s| ==> r[i] == LowerChar(s[i])
  {
    seq(|s|, i requires 0 <= i < |s| => LowerChar(s[i]))
  }

  /** Writing the first k files of a series; files already there are replaced. */
  function Written(files: map<(Marker, nat), string>, marker: Marker, l: seq<Nic>, k: nat): map<(Marker, nat), string>
    requires k <= |l|
  {
    if k == 0 then files else Written(files, marker, l, k - 1)[(marker, k - 1) := Lower(l[k - 1].mac)]
  }

  ghost function Posted(f: Fleet, mac: string, roles: seq<Role>, o: Outcome): Fleet {
    if o == Lost(false) then f else Schedule(f, mac, roles)
  }

  ghost predicate Step(expected: nat, s: State, ev: Event, t: State) {
    match ev
    case Discovery(post) =>
      t == s.(fleet := Discover(s.fleet, post))
    case CountControlPlanes =>
      && s.phase == Idle && AllHaveBoot(s.fleet, ControlPlanes(s.fleet))
      && t == s.(phase := if |ControlPlanes(s.fleet)| < expected then Short else NodesDue)
    case FetchForControlPlanes(us, listed) =>
      && s.phase == Short && Enumerates(us, Available(s.fleet)) && AnyNics(s.fleet, us, listed)
      && t == s.(phase := if |listed| >= expected then PostingControlPlanes(MacList(InOrder(listed))[..expected]) else Idle)
    case PostControlPlane(o) =>
      && s.phase.PostingControlPlanes? && s.phase.todo != []
      && t == s.(fleet := Posted(s.fleet, s.phase.todo[0], CONTROL_PLANE_ROLES, o),
                 phase := if o == Returned then PostingControlPlanes(s.phase.todo[1..]) else Idle)
    case ControlPlanesPosted =>
      s.phase == PostingControlPlanes([]) && t == s.(phase := NodesDue)
    case CountNodes =>
      s.phase == NodesDue && AllHaveBoot(s.fleet, Nodes(s.fleet)) && t == s.(phase := NodesCounted)
    case FetchForNodes(us, listed) =>
      && s.phase == NodesCounted && Enumerates(us, Available(s.fleet)) && AnyNics(s.fleet, us, listed)
      && t == s.(phase := PostingNodes(MacList(InOrder(listed))))
    case PostNode(o, next) =>
      && s.phase.PostingNodes? && s.phase.todo != []
      && (if o == Returned then next == PostingNodes(s.phase.todo[1..]) else next in {Idle, NodesDue, SyncDue})
      && t == s.(fleet := Posted(s.fleet, s.phase.todo[0], NODE_ROLES, o), phase := next)
    case NodesPosted =>
      s.phase == PostingNodes([]) && t == s.(phase := SyncDue)
    case NodesSkipped =>
      s.phase in {NodesDue, NodesCounted} && t == s.(phase := SyncDue)
    case Retried =>
      || (s.phase == NodesCounted && t == s.(phase := NodesDue))
      || (s.phase in {NodeSyncDue, NotifyDue} && t == s.(phase := SyncDue))
    case SyncControlPlanes(us, listed, k) =>
      && s.phase == SyncDue && Enumerates(us, ControlPlanes(s.fleet)) && BootNics(s.fleet, us, listed) && k <= |listed|
      && t == s.(files := Written(s.files, ControlPlaneGroup, InOrder(listed), k),
                 phase := if k == |listed| then NodeSyncDue else SyncDue)
    case SyncNodes(us, listed, k) =>
      && s.phase == NodeSyncDue && Enumerates(us, Nodes(s.fleet)) && BootNics(s.fleet, us, listed) && k <= |listed|
      && t == s.(files := Written(s.files, NodeGroup, InOrder(listed), k),
                 phase := if k == |listed| then NotifyDue else SyncDue)
    case Notified =>
      s.phase == NotifyDue && t == s.(phase := Idle)
    case GiveUp =>
      t == s.(phase := Idle)
  }

  // ---------- what every reachable state has ----------

  ghost predicate HasNoRole(h: Host) { h.roles == multiset{} }
  ghost predicate IsControlPlane(h: Host) { h.roles == multiset(CONTROL_PLANE_ROLES) }
  ghost predicate IsNode(h: Host) { h.roles == multiset(NODE_ROLES) }

  /** No role is held twice, and roles come only in the two bundles the plan posts. */
  ghost predicate RolePartition(f: Fleet) {
    forall u :: u in f.hosts ==> HasNoRole(f.hosts[u]) || IsControlPlane(f.hosts[u]) || IsNode(f.hosts[u])
  }

  function Todo(p: Phase): seq<string> {
    if p.PostingControlPlanes? || p.PostingNodes? then p.todo else []
  }

  ghost predicate OwnedBy(f: Fleet, u: string, mac: string) {
    u in f.hosts && Owns(f.hosts[u], mac)
  }

  /** Some unscheduled machine owns the MAC. */
  ghost predicate Wanted(f: Fleet, mac: string) {
    exists u :: OwnedBy(f, u, mac) && HasNoRole(f.hosts[u])
  }

  /** Every MAC still to be posted leads to an unscheduled machine, each to its own. */
  ghost predicate Pending(f: Fleet, todo: seq<string>) {
    && (forall i :: 0 <= i < |todo| ==> Wanted(f, todo[i]))
    && (forall i, j, u :: 0 <= i < j < |todo| && OwnedBy(f, u, todo[i]) ==> !OwnedBy(f, u, todo[j]))
  }

  ghost predicate Inv(expected: nat, s: State) {
    var n := |ControlPlanes(s.fleet)|;
    && Coherent(s.fleet) && RolePartition(s.fleet) && Pending(s.fleet, Todo(s.phase))
    && (n == 0 || n < 2 * expected)
    && (Nodes(s.fleet) != {} ==> n >= expected)
    && (match s.phase
        case Idle => true
        case Short => n < expected
        case PostingControlPlanes(todo) => expected <= n + |todo| < 2 * expected
        case _ => n >= expected)
  }

  /** A report leaves every MAC the plan has listed and not yet posted with an unscheduled
      machine, each with its own. */
  ghost predicate Orderly(s: State, ev: Event) {
    ev.Discovery? ==> Pending(Discover(s.fleet, ev.post), Todo(s.phase))
  }

  /** The report neither takes from its machine nor gives it one of these MACs. */
  ghost predicate LeavesAlone(f: Fleet, p: Post, todo: seq<string>) {
    p.Post? ==> forall i :: 0 <= i < |todo| ==> (todo[i] in MacsOf(p.nics) <==> OwnedBy(f, p.uuid, todo[i]))
  }

  // ---------- one POST ----------

  lemma NewBundle(h: Host)
    requires HasNoRole(h)
    ensures IsControlPlane(AddRoles(h, CONTROL_PLANE_ROLES)) && IsNode(AddRoles(h, NODE_ROLES))
  {
    assert CONTROL_PLANE_ROLES[..1] == [EtcdMember] && [EtcdMember][..0] == [];
    assert NewRoles([], h.roles) == multiset{};
    assert NewRoles([EtcdMember], h.roles) == multiset{EtcdMember};
    assert NewRoles(CONTROL_PLANE_ROLES, h.roles) == multiset{EtcdMember, KubernetesControlPlane};
    assert NODE_ROLES[..0] == [];
  }

  /** A POST for an unscheduled machine gives that machine the bundle and touches no other. */
  lemma PostBundle(f: Fleet, u: string, mac: string, roles: seq<Role>)
    requires Coherent(f) && RolePartition(f) && OwnedBy(f, u, mac) && HasNoRole(f.hosts[u])
    requires roles == CONTROL_PLANE_ROLES || roles == NODE_ROLES
    ensures var g, h := Schedule(f, mac, roles), AddRoles(f.hosts[u], roles);
      && Coherent(g) && RolePartition(g)
      && g.hosts == f.hosts[u := h] && h.nics == f.hosts[u].nics
      && ControlPlanes(g) == ControlPlanes(f) + (if roles == CONTROL_PLANE_ROLES then {u} else {})
      && Nodes(g) == Nodes(f) + (if roles == CONTROL_PLANE_ROLES then {} else {u})
      && u !in ControlPlanes(f) && u !in Nodes(f)
  {
    ScheduleHitsOwner(f, u, mac, roles);
    ScheduleKeepsCoherent(f, mac, roles);
    NewBundle(f.hosts[u]);
    assert AddRoles(f.hosts[u], roles).nics == f.hosts[u].nics;
    hide *;
    BundleGiven(f, Schedule(f, mac, roles), u, AddRoles(f.hosts[u], roles), roles);
  }

  lemma BundleGiven(f: Fleet, g: Fleet, u: string, h: Host, roles: seq<Role>)
    requires RolePartition(f) && u in f.hosts && HasNoRole(f.hosts[u]) && g.hosts == f.hosts[u := h]
    requires if roles == CONTROL_PLANE_ROLES then IsControlPlane(h) else IsNode(h)
    ensures RolePartition(g)
    ensures ControlPlanes(g) == ControlPlanes(f) + (if roles == CONTROL_PLANE_ROLES then {u} else {})
    ensures Nodes(g) == Nodes(f) + (if roles == CONTROL_PLANE_ROLES then {} else {u})
    ensures u !in ControlPlanes(f) && u !in Nodes(f)
  {
    hide IsControlPlane, IsNode, HasNoRole, RunsControlPlane;
    Kinds(h);
    Kinds(f.hosts[u]);
    if roles == CONTROL_PLANE_ROLES {
      assert ControlPlanes(g) == ControlPlanes(f) + {u};
      assert Nodes(g) == Nodes(f) + {};
    } else {
      assert ControlPlanes(g) == ControlPlanes(f) + {};
      assert Nodes(g) == Nodes(f) + {u};
    }
  }

  lemma Kinds(h: Host)
    ensures IsControlPlane(h) ==> RunsControlPlane(h) && KubernetesNode !in h.roles
    ensures IsNode(h) ==> !RunsControlPlane(h) && KubernetesNode in h.roles
    ensures HasNoRole(h) ==> !RunsControlPlane(h) && KubernetesNode !in h.roles
  {
    assert EtcdMember in CONTROL_PLANE_ROLES && KubernetesNode !in CONTROL_PLANE_ROLES;
  }

  lemma PendingTail(f: Fleet, g: Fleet, u: string, h: Host, todo: seq<string>)
    requires todo != [] && Pending(f, todo) && OwnedBy(f, u, todo[0])
    requires h.nics == f.hosts[u].nics && g.hosts == f.hosts[u := h]
    ensures Pending(g, todo[1..])
  {
    var rest := todo[1..];
    assert forall v, m :: OwnedBy(f, v, m) <==> OwnedBy(g, v, m);
    hide OwnedBy;
    forall i | 0 <= i < |rest| ensures Wanted(g, rest[i]) {
      assert rest[i] == todo[i + 1] && Wanted(f, todo[i + 1]);
      var v :| OwnedBy(f, v, rest[i]) && HasNoRole(f.hosts[v]);
      assert v != u;
      assert OwnedBy(g, v, rest[i]);
    }
    forall i, j, v | 0 <= i < j < |rest| && OwnedBy(g, v, rest[i]) ensures !OwnedBy(g, v, rest[j]) {
      assert rest[i] == todo[i + 1] && rest[j] == todo[j + 1];
    }
  }

  // ---------- the steps ----------

  lemma DiscoveryKeepsSets(f: Fleet, p: Post)
    requires RolePartition(f)
    ensures RolePartition(Discover(f, p))
    ensures ControlPlanes(Discover(f, p)) == ControlPlanes(f) && Nodes(Discover(f, p)) == Nodes(f)
  {
    var g := Discover(f, p);
    forall u ensures RolesHeld(g, u) == RolesHeld(f, u) && (u in f.hosts ==> u in g.hosts)
      ensures u in g.hosts && u !in f.hosts ==> HasNoRole(g.hosts[u])
    {}
    hide Discover;
    SameRoles(f, g);
  }

  lemma SameRoles(f: Fleet, g: Fleet)
    requires RolePartition(f) && forall u :: u in f.hosts ==> u in g.hosts && g.hosts[u].roles == f.hosts[u].roles
    requires forall u :: u in g.hosts && u !in f.hosts ==> HasNoRole(g.hosts[u])
    ensures RolePartition(g) && ControlPlanes(g) == ControlPlanes(f) && Nodes(g) == Nodes(f)
  {
    hide RunsControlPlane, HasNoRole, IsControlPlane, IsNode;
    forall u | u in g.hosts && u in f.hosts
      ensures HasNoRole(g.hosts[u]) || IsControlPlane(g.hosts[u]) || IsNode(g.hosts[u])
      ensures RunsControlPlane(g.hosts[u]) <==> RunsControlPlane(f.hosts[u])
    {
      SameKind(f.hosts[u], g.hosts[u]);
    }
    forall u | u in g.hosts && u !in f.hosts ensures !RunsControlPlane(g.hosts[u]) && KubernetesNode !in g.hosts[u].roles {
      Kinds(g.hosts[u]);
    }
  }

  lemma SameKind(h: Host, k: Host)
    requires h.roles == k.roles
    ensures (HasNoRole(h) <==> HasNoRole(k)) && (IsControlPlane(h) <==> IsControlPlane(k)) && (IsNode(h) <==> IsNode(k))
    ensures RunsControlPlane(h) <==> RunsControlPlane(k)
  {}

  /** A report that neither takes nor gives the MAC leaves its owner. */
  lemma OwnersAfterReport(f: Fleet, p: Post, mac: string, u: string)
    requires Acceptable(f, p) && (mac in MacsOf(p.nics) <==> OwnedBy(f, p.uuid, mac))
    ensures OwnedBy(Discover(f, p), u, mac) <==> OwnedBy(f, u, mac)
  {
    if u == p.uuid { OwnsAfterReport(f, p); }
  }

  lemma ReportKeepsRoles(f: Fleet, p: Post)
    ensures forall u :: u in f.hosts ==> u in Discover(f, p).hosts && Discover(f, p).hosts[u].roles == f.hosts[u].roles
  {}

  lemma LeavesAloneSays(f: Fleet, p: Post, todo: seq<string>, i: nat)
    requires LeavesAlone(f, p, todo) && p.Post? && i < |todo|
    ensures todo[i] in MacsOf(p.nics) <==> OwnedBy(f, p.uuid, todo[i])
  {}

  lemma RefusedReport(f: Fleet, p: Post)
    ensures !Acceptable(f, p) ==> Discover(f, p) == f
    ensures Acceptable(f, p) ==> p.Post?
  {}

  /** Such a report is orderly; so is any report while nothing is listed. */
  lemma LeavingAloneIsOrderly(s: State, p: Post)
    requires Pending(s.fleet, Todo(s.phase)) && (LeavesAlone(s.fleet, p, Todo(s.phase)) || Todo(s.phase) == [])
    ensures Orderly(s, Discovery(p))
  {
    hide Discover, Acceptable, LeavesAlone, MacsOf, OwnedBy, Wanted, Pending;
    var f, g, todo := s.fleet, Discover(s.fleet, p), Todo(s.phase);
    PendingNothing(g);
    RefusedReport(f, p);
    if Acceptable(f, p) && todo != [] {
      forall i, u | 0 <= i < |todo| ensures OwnedBy(g, u, todo[i]) <==> OwnedBy(f, u, todo[i]) {
        LeavesAloneSays(f, p, todo, i);
        OwnersAfterReport(f, p, todo[i], u);
      }
      ReportKeepsRoles(f, p);
      SameOwners(f, g, todo);
    }
  }

  lemma SameOwners(f: Fleet, g: Fleet, todo: seq<string>)
    requires Pending(f, todo)
    requires forall u :: u in f.hosts ==> u in g.hosts && g.hosts[u].roles == f.hosts[u].roles
    requires forall i, u :: 0 <= i < |todo| ==> (OwnedBy(g, u, todo[i]) <==> OwnedBy(f, u, todo[i]))
    ensures Pending(g, todo)
  {
    hide Owns;
    forall i | 0 <= i < |todo| ensures Wanted(g, todo[i]) {
      assert Wanted(f, todo[i]);
      var v :| OwnedBy(f, v, todo[i]) && HasNoRole(f.hosts[v]);
      assert OwnedBy(g, v, todo[i]);
    }
    hide OwnedBy;
  }

  lemma OwnsAfterReport(f: Fleet, p: Post)
    requires Acceptable(f, p)
    ensures forall m :: Owns(Discover(f, p).hosts[p.uuid], m) <==> m in MacsOf(p.nics)
  {
    var h := Discover(f, p).hosts[p.uuid];
    forall m | m in MacsOf(p.nics) ensures Owns(h, m) {
      var q :| q in p.nics && q.mac != "" && q.mac == m;
      assert NicOf(q, p.bootMac) in h.nics;
    }
  }

  lemma ListedArePending(f: Fleet, us: seq<string>, listed: seq<Nic>, k: nat)
    requires Coherent(f) && Enumerates(us, Available(f)) && AnyNics(f, us, listed)
    requires k <= |listed|
    ensures Pending(f, MacList(InOrder(listed))[..k])
  {
    assert Distinct(us);
    hide *;
    var sorted := InOrder(listed);
    InOrderPermutes(listed);
    var todo := MacList(sorted)[..k];
    forall i | 0 <= i < k ensures Wanted(f, todo[i]) {
      ListedIsFree(f, us, listed, sorted, i);
    }
    forall i, j, u | 0 <= i < j < k && OwnedBy(f, u, todo[i]) ensures !OwnedBy(f, u, todo[j]) {
      ListedApart(f, us, listed, sorted, i, j, u);
    }
    PendingIf(f, todo);
  }

  lemma PendingIf(f: Fleet, todo: seq<string>)
    requires forall i :: 0 <= i < |todo| ==> Wanted(f, todo[i])
    requires forall i, j, u :: 0 <= i < j < |todo| && OwnedBy(f, u, todo[i]) ==> !OwnedBy(f, u, todo[j])
    ensures Pending(f, todo)
  {}

  lemma ListedIsFree(f: Fleet, us: seq<string>, listed: seq<Nic>, sorted: seq<Nic>, i: nat)
    requires Enumerates(us, Available(f)) && AnyNics(f, us, listed)
    requires multiset(sorted) == multiset(listed) && i < |sorted|
    ensures Wanted(f, sorted[i].mac)
  {
    var a := OriginOf(listed, sorted, i);
    assert us[a] in us;
    assert OwnedBy(f, us[a], sorted[i].mac);
  }

  lemma OriginOf(listed: seq<Nic>, sorted: seq<Nic>, i: nat) returns (a: nat)
    requires multiset(sorted) == multiset(listed) && i < |sorted|
    ensures a < |listed| && listed[a] == sorted[i]
  {
    assert sorted[i] in multiset(listed);
    a :| 0 <= a < |listed| && listed[a] == sorted[i];
  }

  lemma ListedApart(f: Fleet, us: seq<string>, listed: seq<Nic>, sorted: seq<Nic>, i: nat, j: nat, u: string)
    requires Coherent(f) && Distinct(us) && AnyNics(f, us, listed)
    requires multiset(sorted) == multiset(listed) && i < j < |sorted|
    requires OwnedBy(f, u, sorted[i].mac)
    ensures !OwnedBy(f, u, sorted[j].mac)
  {
    NicsListedOnce(f, us, listed);
    PermutationDistinct(listed, sorted);
    var a := OriginOf(listed, sorted, i);
    var b := OriginOf(listed, sorted, j);
    assert a != b && us[a] != us[b];
  }

  lemma NicsListedOnce(f: Fleet, us: seq<string>, listed: seq<Nic>)
    requires Coherent(f) && Distinct(us) && AnyNics(f, us, listed)
    ensures Distinct(listed)
  {
    forall a, b | 0 <= a < b < |listed| ensures listed[a] != listed[b] {
      assert us[a] != us[b];
    }
  }

  lemma PostCommits(f: Fleet, todo: seq<string>, roles: seq<Role>)
    requires Coherent(f) && RolePartition(f) && Pending(f, todo) && todo != []
    requires roles == CONTROL_PLANE_ROLES || roles == NODE_ROLES
    ensures var g := Schedule(f, todo[0], roles);
      && Coherent(g) && RolePartition(g) && Pending(g, todo[1..])
      && |ControlPlanes(g)| == |ControlPlanes(f)| + (if roles == CONTROL_PLANE_ROLES then 1 else 0)
      && (roles == CONTROL_PLANE_ROLES ==> Nodes(g) == Nodes(f))
  {
    hide *;
    var u := OwnerWanted(f, todo);
    PostBundle(f, u, todo[0], roles);
    var g := Schedule(f, todo[0], roles);
    PendingTail(f, g, u, AddRoles(f.hosts[u], roles), todo);
    OneMore(ControlPlanes(f), u);
    OneMore(Nodes(f), u);
  }

  lemma OneMore(s: set<string>, u: string)
    ensures u !in s ==> |s + {u}| == |s| + 1
    ensures s + {} == s
  {}

  lemma OwnerWanted(f: Fleet, todo: seq<string>) returns (u: string)
    requires Pending(f, todo) && todo != []
    ensures u in f.hosts && OwnedBy(f, u, todo[0]) && HasNoRole(f.hosts[u])
  {
    assert Wanted(f, todo[0]);
    u :| OwnedBy(f, u, todo[0]) && HasNoRole(f.hosts[u]);
  }

  /** What one POST of the plan does, whether or not its answer arrives. */
  lemma PostEffect(f: Fleet, todo: seq<string>, roles: seq<Role>, o: Outcome)
    requires Coherent(f) && RolePartition(f) && Pending(f, todo) && todo != []
    requires roles == CONTROL_PLANE_ROLES || roles == NODE_ROLES
    ensures var g := Posted(f, todo[0], roles, o);
      && Coherent(g) && RolePartition(g) && (o == Returned ==> Pending(g, todo[1..]))
      && |ControlPlanes(g)| == |ControlPlanes(f)| + (if roles == CONTROL_PLANE_ROLES && o != Lost(false) then 1 else 0)
      && (roles == CONTROL_PLANE_ROLES ==> Nodes(g) == Nodes(f))
  {
    PostCommits(f, todo, roles);
    hide Coherent, RolePartition, Pending, Schedule, ControlPlanes, Nodes;
  }

  lemma PostKeeps(expected: nat, s: State, ev: Event, t: State)
    requires Inv(expected, s) && Step(expected, s, ev, t) && (ev.PostControlPlane? || ev.PostNode?)
    ensures Inv(expected, t)
  {
    hide Coherent, RolePartition, Pending, Posted, ControlPlanes, Nodes;
    PendingNothing(t.fleet);
    PostEffect(s.fleet, s.phase.todo, if ev.PostControlPlane? then CONTROL_PLANE_ROLES else NODE_ROLES, ev.outcome);
    assert CONTROL_PLANE_ROLES != NODE_ROLES by { assert |CONTROL_PLANE_ROLES| != |NODE_ROLES|; }
  }

  lemma PendingNothing(f: Fleet)
    ensures Pending(f, [])
  {}

  lemma DiscoveryKeeps(expected: nat, s: State, ev: Event, t: State)
    requires Inv(expected, s) && Step(expected, s, ev, t) && Orderly(s, ev) && ev.Discovery?
    ensures Inv(expected, t)
  {
    hide Coherent, RolePartition, Pending, ControlPlanes, Nodes, Discover;
    DiscoverKeepsCoherent(s.fleet, ev.post);
    DiscoveryKeepsSets(s.fleet, ev.post);
  }

  lemma FetchKeeps(expected: nat, s: State, ev: Event, t: State)
    requires Inv(expected, s) && Step(expected, s, ev, t) && (ev.FetchForControlPlanes? || ev.FetchForNodes?)
    ensures Inv(expected, t)
  {
    hide Coherent, RolePartition, Pending, ControlPlanes, Nodes, Available, AnyNics, Enumerates;
    PendingNothing(s.fleet);
    var k := if ev.FetchForNodes? then |ev.listed| else expected;
    if k <= |ev.listed| { ListedArePending(s.fleet, ev.us, ev.listed, k); }
    assert MacList(InOrder(ev.listed))[..|ev.listed|] == MacList(InOrder(ev.listed));
  }

  /** The steps that leave the fleet alone and list no MACs. */
  lemma QuietKeeps(expected: nat, s: State, ev: Event, t: State)
    requires Inv(expected, s) && Step(expected, s, ev, t)
    requires !ev.Discovery? && !ev.PostControlPlane? && !ev.PostNode? && !ev.FetchForControlPlanes? && !ev.FetchForNodes?
    ensures Inv(expected, t)
  {
    PendingNothing(s.fleet);
    hide Coherent, RolePartition, Pending, ControlPlanes, Nodes, AllHaveBoot, Enumerates, BootNics, InOrder, Written;
  }

  /** One step keeps the invariant, whatever the event. */
  lemma StepKeeps(expected: nat, s: State, ev: Event, t: State)
    requires Inv(expected, s) && Step(expected, s, ev, t) && Orderly(s, ev)
    ensures Inv(expected, t)
  {
    hide *;
    if ev.Discovery? {
      DiscoveryKeeps(expected, s, ev, t);
    } else if ev.PostControlPlane? || ev.PostNode? {
      PostKeeps(expected, s, ev, t);
    } else if ev.FetchForControlPlanes? || ev.FetchForNodes? {
      FetchKeeps(expected, s, ev, t);
    } else {
      QuietKeeps(expected, s, ev, t);
    }
  }
}
