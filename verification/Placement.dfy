/** Posting a whole list of MACs that lead to different unscheduled machines. */
module Placement {
  import opened Prelude
  import opened Machines
  import opened Queries
  import opened Scheduling
  import opened PlanRun
  import opened PlanSafety

  ghost function PostAll(f: Fleet, macs: seq<string>, roles: seq<Role>): Fleet
    decreases |macs|
  {
    if macs == [] then f else PostAll(Schedule(f, macs[0], roles), macs[1..], roles)
  }

  ghost predicate OwnsSome(f: Fleet, u: string, macs: seq<string>) {
    exists i :: 0 <= i < |macs| && OwnedBy(f, u, macs[i])
  }

  ghost function Owners(f: Fleet, macs: seq<string>): set<string> {
    set u | u in f.hosts && OwnsSome(f, u, macs)
  }

  ghost function WithBoot(f: Fleet): set<string> {
    set u | u in f.hosts && HasBoot(f.hosts[u])
  }

  /** What the posts leave: the owners hold the bundle, every other machine is as it was,
      and nothing but roles has changed. */
  ghost predicate Placed(f: Fleet, g: Fleet, owners: set<string>, roles: seq<Role>) {
    && g.hosts.Keys == f.hosts.Keys && g.chassis == f.chassis
    && (forall u :: u in f.hosts ==> g.hosts[u] == if u in owners then f.hosts[u].(roles := multiset(roles)) else f.hosts[u])
  }

  lemma PlacedOne(f: Fleet, todo: seq<string>, roles: seq<Role>) returns (u: string)
    requires Coherent(f) && RolePartition(f) && Pending(f, todo) && todo != []
    requires roles == CONTROL_PLANE_ROLES || roles == NODE_ROLES
    ensures u in f.hosts && OwnedBy(f, u, todo[0]) && HasNoRole(f.hosts[u])
    ensures Placed(f, Schedule(f, todo[0], roles), {u}, roles)
  {
    u := OwnerWanted(f, todo);
    hide Coherent, RolePartition, Pending, Placed;
    ScheduleHitsOwner(f, u, todo[0], roles);
    BundleIs(f.hosts[u], roles);
    hide *;
    PlacedAt(f, u, roles);
  }

  lemma PlacedAt(f: Fleet, u: string, roles: seq<Role>)
    requires u in f.hosts
    ensures Placed(f, f.(hosts := f.hosts[u := f.hosts[u].(roles := multiset(roles))]), {u}, roles)
  {}

  lemma BundleIs(h: Host, roles: seq<Role>)
    requires HasNoRole(h) && (roles == CONTROL_PLANE_ROLES || roles == NODE_ROLES)
    ensures AddRoles(h, roles) == h.(roles := multiset(roles))
  {
    NewBundle(h);
  }

  lemma PlacedOwners(f: Fleet, g: Fleet, owners: set<string>, roles: seq<Role>, macs: seq<string>)
    requires Placed(f, g, owners, roles)
    ensures Owners(g, macs) == Owners(f, macs)
  {
    forall u, m ensures OwnedBy(g, u, m) <==> OwnedBy(f, u, m) {}
    hide Placed, OwnedBy;
    assert forall u :: OwnsSome(g, u, macs) <==> OwnsSome(f, u, macs);
    hide OwnsSome;
    assert forall u :: OwnsSome(f, u, macs) ==> u in f.hosts && u in g.hosts by { OwnersExist(f, macs); OwnersExist(g, macs); }
  }

  lemma OwnersExist(f: Fleet, macs: seq<string>)
    ensures forall u :: OwnsSome(f, u, macs) ==> u in f.hosts
  {}

  lemma OwnsSomeFirst(f: Fleet, v: string, macs: seq<string>)
    requires macs != []
    ensures OwnsSome(f, v, macs) <==> OwnedBy(f, v, macs[0]) || OwnsSome(f, v, macs[1..])
  {
    hide OwnedBy;
    var rest := macs[1..];
    if OwnsSome(f, v, macs) && !OwnedBy(f, v, macs[0]) {
      var i :| 0 <= i < |macs| && OwnedBy(f, v, macs[i]);
      assert OwnedBy(f, v, rest[i - 1]);
    }
    if OwnsSome(f, v, rest) {
      var i :| 0 <= i < |rest| && OwnedBy(f, v, rest[i]);
      assert OwnedBy(f, v, macs[i + 1]);
    }
  }

  lemma FirstOwner(f: Fleet, u: string, macs: seq<string>)
    requires Coherent(f) && macs != [] && OwnedBy(f, u, macs[0]) && Pending(f, macs)
    ensures Owners(f, macs) == {u} + Owners(f, macs[1..]) && u !in Owners(f, macs[1..])
  {
    assert u in f.hosts;
    forall v ensures OwnedBy(f, v, macs[0]) <==> v == u {
      if OwnedBy(f, v, macs[0]) { OwnerIsUnique(f, u, v, macs[0]); }
    }
    forall i | 0 < i < |macs| ensures !OwnedBy(f, u, macs[i]) {}
    assert !OwnsSome(f, u, macs[1..]);
    hide OwnsSome, Coherent, Pending, OwnedBy;
    forall v ensures OwnsSome(f, v, macs) <==> v == u || OwnsSome(f, v, macs[1..]) {
      OwnsSomeFirst(f, v, macs);
    }
  }

  lemma PlacedTwice(f: Fleet, g: Fleet, h: Fleet, u: string, owners: set<string>, roles: seq<Role>)
    requires Placed(f, g, {u}, roles) && Placed(g, h, owners, roles) && u !in owners
    ensures Placed(f, h, {u} + owners, roles)
  {}

  lemma StillFree(f: Fleet, g: Fleet, u: string, owners: set<string>, roles: seq<Role>)
    requires Placed(f, g, {u}, roles) && u !in owners
    requires forall v :: v in owners ==> v in g.hosts && g.hosts[v].roles == multiset{}
    ensures forall v :: v in owners ==> v in f.hosts && f.hosts[v].roles == multiset{}
  {}

  lemma OwnersOfNothing(f: Fleet, roles: seq<Role>)
    ensures Owners(f, []) == {} && PostAll(f, [], roles) == f && Placed(f, f, {}, roles)
  {}

  lemma PostAllFirst(f: Fleet, macs: seq<string>, roles: seq<Role>)
    requires macs != []
    ensures PostAll(f, macs, roles) == PostAll(Schedule(f, macs[0], roles), macs[1..], roles)
  {}

  /** Posting the list places the bundle on exactly the owners, one per MAC. */
  lemma {:induction false} PostAllPlaces(f: Fleet, macs: seq<string>, roles: seq<Role>)
    requires Coherent(f) && RolePartition(f) && Pending(f, macs)
    requires roles == CONTROL_PLANE_ROLES || roles == NODE_ROLES
    ensures Coherent(PostAll(f, macs, roles))
    ensures Placed(f, PostAll(f, macs, roles), Owners(f, macs), roles)
    ensures |Owners(f, macs)| == |macs|
    ensures forall u :: u in Owners(f, macs) ==> u in f.hosts && f.hosts[u].roles == multiset{}
    decreases |macs|
  {
    hide *;
    if macs == [] {
      OwnersOfNothing(f, roles);
    } else {
      var g := Schedule(f, macs[0], roles);
      PostCommits(f, macs, roles);
      var u := PlacedOne(f, macs, roles);
      NoneIsNone(f.hosts[u]);
      PostAllPlaces(g, macs[1..], roles);
      PostAllFirst(f, macs, roles);
      PlacedOwners(f, g, {u}, roles, macs[1..]);
      FirstOwner(f, u, macs);
      PlacedTwice(f, g, PostAll(g, macs[1..], roles), u, Owners(f, macs[1..]), roles);
      StillFree(f, g, u, Owners(f, macs[1..]), roles);
      OneMore(Owners(f, macs[1..]), u);
      assert {u} + Owners(f, macs[1..]) == Owners(f, macs[1..]) + {u};
    }
  }

  // ---------- what placing does to the views ----------

  lemma PlacedViews(f: Fleet, g: Fleet, owners: set<string>, roles: seq<Role>)
    requires Placed(f, g, owners, roles) && (roles == CONTROL_PLANE_ROLES || roles == NODE_ROLES)
    requires RolePartition(f) && forall u :: u in owners ==> u in f.hosts && f.hosts[u].roles == multiset{}
    ensures RolePartition(g) && WithBoot(g) == WithBoot(f) && Available(g) == Available(f) - owners
    ensures ControlPlanes(g) == ControlPlanes(f) + (if roles == CONTROL_PLANE_ROLES then owners else {})
    ensures Nodes(g) == Nodes(f) + (if roles == CONTROL_PLANE_ROLES then {} else owners)
    ensures owners !! ControlPlanes(f) && owners !! Nodes(f)
  {
    hide HasBoot, RunsControlPlane, HasNoRole, IsControlPlane, IsNode, Follows, Available, ControlPlanes, Nodes, WithBoot;
    var controlPlane := roles == CONTROL_PLANE_ROLES;
    forall u | u in f.hosts ensures Follows(f.hosts[u], g.hosts[u], u in owners, controlPlane) {
      NoneIsNone(f.hosts[u]);
      PlacedHost(f.hosts[u], g.hosts[u], u in owners, roles);
    }
    assert g.hosts.Keys == f.hosts.Keys;
    hide *;
    FreeViews(f, g, owners, controlPlane);
    RoleViews(f, g, owners, controlPlane);
  }

  lemma FreeViews(f: Fleet, g: Fleet, owners: set<string>, controlPlane: bool)
    requires g.hosts.Keys == f.hosts.Keys
    requires forall u :: u in f.hosts ==> Follows(f.hosts[u], g.hosts[u], u in owners, controlPlane)
    ensures RolePartition(g) && WithBoot(g) == WithBoot(f) && Available(g) == Available(f) - owners
  {
    hide HasBoot, HasNoRole, IsControlPlane, IsNode, RunsControlPlane;
  }

  lemma RoleViews(f: Fleet, g: Fleet, owners: set<string>, controlPlane: bool)
    requires g.hosts.Keys == f.hosts.Keys && forall u :: u in owners ==> u in f.hosts
    requires forall u :: u in f.hosts ==> Follows(f.hosts[u], g.hosts[u], u in owners, controlPlane)
    ensures ControlPlanes(g) == ControlPlanes(f) + (if controlPlane then owners else {})
    ensures Nodes(g) == Nodes(f) + (if controlPlane then {} else owners)
    ensures owners !! ControlPlanes(f) && owners !! Nodes(f)
  {
    hide HasBoot, HasNoRole, IsControlPlane, IsNode, RunsControlPlane;
  }

  lemma NoneIsNone(h: Host)
    ensures HasNoRole(h) <==> h.roles == multiset{}
  {}

  /** How a machine's place in the views follows from being chosen. */
  ghost predicate Follows(h: Host, k: Host, chosen: bool, controlPlane: bool) {
    && (HasBoot(k) <==> HasBoot(h))
    && (HasNoRole(k) || IsControlPlane(k) || IsNode(k))
    && (k.roles == multiset{} <==> h.roles == multiset{} && !chosen)
    && (RunsControlPlane(k) <==> RunsControlPlane(h) || (chosen && controlPlane))
    && (KubernetesNode in k.roles <==> KubernetesNode in h.roles || (chosen && !controlPlane))
    && (chosen ==> !RunsControlPlane(h) && KubernetesNode !in h.roles)
  }

  lemma PlacedHost(h: Host, k: Host, chosen: bool, roles: seq<Role>)
    requires k == if chosen then h.(roles := multiset(roles)) else h
    requires roles == CONTROL_PLANE_ROLES || roles == NODE_ROLES
    requires chosen ==> HasNoRole(h)
    requires HasNoRole(h) || IsControlPlane(h) || IsNode(h)
    ensures Follows(h, k, chosen, roles == CONTROL_PLANE_ROLES)
  {
    Kinds(h);
    Kinds(k);
    assert multiset(CONTROL_PLANE_ROLES) == multiset{EtcdMember, KubernetesControlPlane} && multiset(NODE_ROLES) == multiset{KubernetesNode};
    assert CONTROL_PLANE_ROLES != NODE_ROLES by { assert |CONTROL_PLANE_ROLES| != |NODE_ROLES|; }
    assert KubernetesNode in multiset{KubernetesNode};
    hide RunsControlPlane, HasBoot;
  }
}
