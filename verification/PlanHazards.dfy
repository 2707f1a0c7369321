/** Where the plan's invariants need the order of events: what one POST does to a fleet
    that changed since the MACs were listed, exactly when that is harmless, and a run
    that schedules a node beside no control plane at all. */
module PlanHazards {
  import opened Prelude
  import opened Machines
  import opened Queries
  import opened Scheduling
  import opened PlanRun
  import opened PlanSafety
  import opened Placement

  /** The owner of the MAC, if any, holds nothing or the very roles posted. */
  ghost predicate Harmless(f: Fleet, mac: string, roles: seq<Role>) {
    forall u :: OwnedBy(f, u, mac) ==> f.hosts[u].roles == multiset{} || f.hosts[u].roles == multiset(roles)
  }

  /** A POST keeps the roles partitioned exactly when it is harmless. */
  lemma PostKeepsPartitionIff(f: Fleet, mac: string, roles: seq<Role>)
    requires Coherent(f) && RolePartition(f) && (roles == CONTROL_PLANE_ROLES || roles == NODE_ROLES)
    ensures RolePartition(Schedule(f, mac, roles)) <==> Harmless(f, mac, roles)
  {
    if u :| OwnedBy(f, u, mac) {
      forall v ensures OwnedBy(f, v, mac) ==> v == u {
        if OwnedBy(f, v, mac) { OwnerIsUnique(f, u, v, mac); }
      }
      ScheduleHitsOwner(f, u, mac, roles);
      hide Schedule, OwnedBy, Coherent, AddRoles;
      BundleOnTop(f.hosts[u], roles);
      PartitionAfter(f, Schedule(f, mac, roles), u, AddRoles(f.hosts[u], roles));
    } else {
      forall u | u in f.hosts ensures !Owns(f.hosts[u], mac) {
        assert !OwnedBy(f, u, mac);
      }
      ScheduleUnknown(f, mac, roles);
    }
  }

  lemma PartitionAfter(f: Fleet, g: Fleet, u: string, h: Host)
    requires RolePartition(f) && u in f.hosts && g.hosts == f.hosts[u := h]
    ensures RolePartition(g) <==> HasNoRole(h) || IsControlPlane(h) || IsNode(h)
  {
    hide HasNoRole, IsControlPlane, IsNode;
    assert g.hosts[u] == h;
    forall v | v in g.hosts && v != u ensures HasNoRole(g.hosts[v]) || IsControlPlane(g.hosts[v]) || IsNode(g.hosts[v]) {
      assert v in f.hosts && g.hosts[v] == f.hosts[v];
    }
  }

  lemma BundleValues(h: Host)
    ensures AddRoles(h, CONTROL_PLANE_ROLES).roles ==
            h.roles + ((if EtcdMember in h.roles then multiset{} else multiset{EtcdMember})
                       + (if KubernetesControlPlane in h.roles then multiset{} else multiset{KubernetesControlPlane}))
    ensures AddRoles(h, NODE_ROLES).roles == h.roles + (if KubernetesNode in h.roles then multiset{} else multiset{KubernetesNode})
    ensures multiset(CONTROL_PLANE_ROLES) == multiset{EtcdMember, KubernetesControlPlane} && multiset(NODE_ROLES) == multiset{KubernetesNode}
  {
    NewRolesOfOne(EtcdMember, h.roles);
    NewRolesOfOne(KubernetesNode, h.roles);
    assert CONTROL_PLANE_ROLES[..1] == [EtcdMember];
    assert NewRoles(CONTROL_PLANE_ROLES, h.roles) ==
           NewRoles([EtcdMember], h.roles) + (if KubernetesControlPlane in h.roles then multiset{} else multiset{KubernetesControlPlane});
    hide NewRoles;
  }

  lemma NewRolesOfOne(r: Role, held: multiset<Role>)
    ensures NewRoles([r], held) == if r in held then multiset{} else multiset{r}
  {
    assert [r][..0] == [];
    assert NewRoles([], held) == multiset{};
  }

  lemma BundleOnTop(h: Host, roles: seq<Role>)
    requires HasNoRole(h) || IsControlPlane(h) || IsNode(h)
    requires roles == CONTROL_PLANE_ROLES || roles == NODE_ROLES
    ensures var k := AddRoles(h, roles);
      (HasNoRole(k) || IsControlPlane(k) || IsNode(k)) <==> h.roles == multiset{} || h.roles == multiset(roles)
  {
    BundleValues(h);
    hide AddRoles;
    var k := AddRoles(h, roles);
    assert CONTROL_PLANE_ROLES != NODE_ROLES by { assert |CONTROL_PLANE_ROLES| != |NODE_ROLES|; }
    assert IsControlPlane(h) ==> EtcdMember in h.roles && KubernetesControlPlane in h.roles && KubernetesNode !in h.roles;
    assert IsNode(h) ==> EtcdMember !in h.roles && KubernetesControlPlane !in h.roles && KubernetesNode in h.roles;
    if (IsControlPlane(h) && roles == NODE_ROLES) || (IsNode(h) && roles == CONTROL_PLANE_ROLES) {
      assert KubernetesNode in k.roles && EtcdMember in k.roles;
    }
  }

  // ---------- how many control planes a try of POSTs makes ----------

  /** No machine holds a part of the control plane's roles, unless it is a node too. */
  ghost predicate WholeOrNode(f: Fleet) {
    forall u :: u in f.hosts ==> HasNoRole(f.hosts[u]) || IsControlPlane(f.hosts[u]) || KubernetesNode in f.hosts[u].roles
  }

  lemma PartitionIsWhole(f: Fleet)
    requires RolePartition(f)
    ensures WholeOrNode(f)
  {}

  lemma BundleKeepsKind(h: Host)
    requires HasNoRole(h) || IsControlPlane(h) || KubernetesNode in h.roles
    ensures var k := AddRoles(h, CONTROL_PLANE_ROLES);
      && (IsControlPlane(k) || KubernetesNode in k.roles)
      && (RunsControlPlane(k) <==> RunsControlPlane(h) || HasNoRole(h))
      && (HasNoRole(h) ==> !RunsControlPlane(h))
  {
    BundleValues(h);
    hide AddRoles;
    Kinds(h);
    var k := AddRoles(h, CONTROL_PLANE_ROLES);
    Kinds(k);
    if KubernetesNode in h.roles {
      assert KubernetesNode in k.roles && KubernetesNode !in CONTROL_PLANE_ROLES;
    }
  }

  /** What a control plane POST makes of each machine. */
  ghost predicate Turned(h: Host, k: Host, hit: bool) {
    && (HasNoRole(k) || IsControlPlane(k) || KubernetesNode in k.roles)
    && (RunsControlPlane(k) <==> RunsControlPlane(h) || (hit && HasNoRole(h)))
    && (HasNoRole(h) ==> !RunsControlPlane(h))
  }

  lemma PostTurns(f: Fleet, mac: string, u: string)
    requires WholeOrNode(f) && u in f.hosts
    ensures var g := Schedule(f, mac, CONTROL_PLANE_ROLES);
      g.hosts.Keys == f.hosts.Keys && Turned(f.hosts[u], g.hosts[u], OwnedBy(f, u, mac))
  {
    BundleKeepsKind(f.hosts[u]);
    Kinds(f.hosts[u]);
  }

  lemma TurnedAdds(f: Fleet, g: Fleet, u: string, mac: string)
    requires g.hosts.Keys == f.hosts.Keys && forall v :: v in f.hosts ==> Turned(f.hosts[v], g.hosts[v], OwnedBy(f, v, mac))
    requires u in f.hosts && HasNoRole(f.hosts[u]) && forall v :: OwnedBy(f, v, mac) <==> v == u
    ensures ControlPlanes(g) == ControlPlanes(f) + {u} && u !in ControlPlanes(f)
  {
    hide OwnedBy, HasNoRole, IsControlPlane, RunsControlPlane;
  }

  lemma TurnedKeeps(f: Fleet, g: Fleet, mac: string)
    requires g.hosts.Keys == f.hosts.Keys && forall v :: v in f.hosts ==> Turned(f.hosts[v], g.hosts[v], OwnedBy(f, v, mac))
    ensures WholeOrNode(g)
    ensures !Wanted(f, mac) ==> ControlPlanes(g) == ControlPlanes(f)
  {
    assert !Wanted(f, mac) ==> forall v :: v in f.hosts && OwnedBy(f, v, mac) ==> !HasNoRole(f.hosts[v]);
    hide Wanted, OwnedBy, HasNoRole, IsControlPlane, RunsControlPlane;
  }

  lemma TheOwner(f: Fleet, mac: string) returns (u: string)
    requires Coherent(f) && Wanted(f, mac)
    ensures u in f.hosts && HasNoRole(f.hosts[u]) && forall v :: OwnedBy(f, v, mac) <==> v == u
  {
    u :| OwnedBy(f, u, mac) && HasNoRole(f.hosts[u]);
    forall v ensures OwnedBy(f, v, mac) ==> v == u {
      if OwnedBy(f, v, mac) { OwnerIsUnique(f, u, v, mac); }
    }
  }

  /** A POST makes a new control plane exactly when the MAC leads to an unscheduled
      machine at the moment it is handled. */
  lemma PostCountsIff(f: Fleet, mac: string)
    requires Coherent(f) && WholeOrNode(f)
    ensures var g := Schedule(f, mac, CONTROL_PLANE_ROLES);
      && |ControlPlanes(g)| == |ControlPlanes(f)| + (if Wanted(f, mac) then 1 else 0)
      && WholeOrNode(g) && Coherent(g)
  {
    hide *;
    var g := Schedule(f, mac, CONTROL_PLANE_ROLES);
    ScheduleKeepsCoherent(f, mac, CONTROL_PLANE_ROLES);
    ScheduleKeys(f, mac, CONTROL_PLANE_ROLES);
    forall u | u in f.hosts ensures Turned(f.hosts[u], g.hosts[u], OwnedBy(f, u, mac)) {
      PostTurns(f, mac, u);
    }
    TurnedKeeps(f, g, mac);
    if Wanted(f, mac) {
      var u := TheOwner(f, mac);
      TurnedAdds(f, g, u, mac);
      OneMore(ControlPlanes(f), u);
    }
  }

  lemma ScheduleKeys(f: Fleet, mac: string, roles: seq<Role>)
    ensures Schedule(f, mac, roles).hosts.Keys == f.hosts.Keys
  {}

  /** How many of the POSTs lead to an unscheduled machine when their turn comes. */
  ghost function Landed(f: Fleet, todo: seq<string>): nat
    decreases |todo|
  {
    if todo == [] then 0
    else (if Wanted(f, todo[0]) then 1 else 0) + Landed(Schedule(f, todo[0], CONTROL_PLANE_ROLES), todo[1..])
  }

  lemma {:induction false} CountAfterTry(f: Fleet, todo: seq<string>)
    requires Coherent(f) && WholeOrNode(f)
    ensures |ControlPlanes(PostAll(f, todo, CONTROL_PLANE_ROLES))| == |ControlPlanes(f)| + Landed(f, todo)
    ensures Landed(f, todo) <= |todo|
    decreases |todo|
  {
    hide Coherent, WholeOrNode, ControlPlanes, Schedule, Wanted;
    if todo != [] {
      PostCountsIff(f, todo[0]);
      CountAfterTry(Schedule(f, todo[0], CONTROL_PLANE_ROLES), todo[1..]);
    }
  }

  lemma HeadLands(f: Fleet, todo: seq<string>)
    requires Coherent(f) && todo != [] && Wanted(f, todo[0])
    ensures Pending(f, todo) <==> Pending(Schedule(f, todo[0], CONTROL_PLANE_ROLES), todo[1..])
  {
    var u :| OwnedBy(f, u, todo[0]) && HasNoRole(f.hosts[u]);
    var g, h, rest := Schedule(f, todo[0], CONTROL_PLANE_ROLES), AddRoles(f.hosts[u], CONTROL_PLANE_ROLES), todo[1..];
    ScheduleHitsOwner(f, u, todo[0], CONTROL_PLANE_ROLES);
    NewBundle(f.hosts[u]);
    hide Schedule, AddRoles;
    if Pending(f, todo) {
      hide Pending;
      PendingTail(f, g, u, h, todo);
    }
    if Pending(g, rest) {
      PendingWithHead(f, g, u, h, todo);
    }
  }

  lemma PendingWithHead(f: Fleet, g: Fleet, u: string, h: Host, todo: seq<string>)
    requires Coherent(f) && todo != [] && OwnedBy(f, u, todo[0]) && HasNoRole(f.hosts[u])
    requires g.hosts == f.hosts[u := h] && h.nics == f.hosts[u].nics && !HasNoRole(h) && Pending(g, todo[1..])
    ensures Pending(f, todo)
  {
    hide *;
    assert Wanted(f, todo[0]) by { IsWanted(f, u, todo[0]); }
    OwnedExists(f, u, todo[0]);
    SameOwnership(f, g, u, h);
    forall i | 0 < i < |todo| ensures Wanted(f, todo[i]) && !OwnedBy(f, u, todo[i]) {
      LaterWanted(f, g, u, h, todo, i);
    }
    forall i, j, v | 0 <= i < j < |todo| && OwnedBy(f, v, todo[i]) ensures !OwnedBy(f, v, todo[j]) {
      if i == 0 {
        OneOwner(f, u, v, todo[0]);
      } else {
        LaterApart(g, todo, i, j, v);
      }
    }
    PendingIf(f, todo);
  }

  lemma IsWanted(f: Fleet, u: string, mac: string)
    requires OwnedBy(f, u, mac) && HasNoRole(f.hosts[u])
    ensures Wanted(f, mac)
  {}

  lemma SameOwnership(f: Fleet, g: Fleet, u: string, h: Host)
    requires u in f.hosts && g.hosts == f.hosts[u := h] && h.nics == f.hosts[u].nics
    ensures forall v, m :: OwnedBy(g, v, m) <==> OwnedBy(f, v, m)
  {}

  lemma OneOwner(f: Fleet, u: string, v: string, mac: string)
    requires Coherent(f) && OwnedBy(f, u, mac) && OwnedBy(f, v, mac)
    ensures u == v
  {
    OwnerIsUnique(f, u, v, mac);
  }

  lemma LaterWanted(f: Fleet, g: Fleet, u: string, h: Host, todo: seq<string>, i: nat)
    requires Coherent(f) && u in f.hosts && 0 < i < |todo| && Pending(g, todo[1..])
    requires g.hosts == f.hosts[u := h] && !HasNoRole(h) && forall v, m :: OwnedBy(g, v, m) <==> OwnedBy(f, v, m)
    ensures Wanted(f, todo[i]) && !OwnedBy(f, u, todo[i])
  {
    var v := TailOwner(g, todo, i);
    hide OwnedBy, Coherent, Pending, HasNoRole;
    OwnedExists(g, v, todo[i]);
    assert v != u && g.hosts[v] == f.hosts[v];
    IsWanted(f, v, todo[i]);
    if OwnedBy(f, u, todo[i]) { OneOwner(f, u, v, todo[i]); }
  }

  lemma TailOwner(g: Fleet, todo: seq<string>, i: nat) returns (v: string)
    requires 0 < i < |todo| && Pending(g, todo[1..])
    ensures v in g.hosts && OwnedBy(g, v, todo[i]) && HasNoRole(g.hosts[v])
  {
    var rest := todo[1..];
    assert rest[i - 1] == todo[i] && Wanted(g, rest[i - 1]);
    v :| OwnedBy(g, v, todo[i]) && HasNoRole(g.hosts[v]);
  }

  lemma OwnedExists(f: Fleet, u: string, mac: string)
    ensures OwnedBy(f, u, mac) ==> u in f.hosts
  {}

  lemma LaterApart(g: Fleet, todo: seq<string>, i: nat, j: nat, v: string)
    requires 0 < i < j < |todo| && Pending(g, todo[1..]) && OwnedBy(g, v, todo[i])
    ensures !OwnedBy(g, v, todo[j])
  {
    var rest := todo[1..];
    assert rest[i - 1] == todo[i] && rest[j - 1] == todo[j];
  }

  /** All POSTs of a try land exactly if, when the first is handled, every listed MAC
      leads to an unscheduled machine of its own. */
  lemma {:induction false} AllLandIff(f: Fleet, todo: seq<string>)
    requires Coherent(f) && WholeOrNode(f)
    ensures Landed(f, todo) == |todo| <==> Pending(f, todo)
    decreases |todo|
  {
    hide Coherent, WholeOrNode, Schedule;
    if todo == [] {
      PendingNothing(f);
    } else {
      var g := Schedule(f, todo[0], CONTROL_PLANE_ROLES);
      PostCountsIff(f, todo[0]);
      AllLandIff(g, todo[1..]);
      CountAfterTry(g, todo[1..]);
      if Wanted(f, todo[0]) { HeadLands(f, todo); }
    }
  }

  /** A try whose POSTs are all answered makes exactly as many control planes as it posts
      MACs if and only if every listed MAC leads to an unscheduled machine of its own. */
  lemma TryPlacesAllIff(f: Fleet, todo: seq<string>)
    requires Coherent(f) && RolePartition(f)
    ensures |ControlPlanes(PostAll(f, todo, CONTROL_PLANE_ROLES))| == |ControlPlanes(f)| + |todo| <==> Pending(f, todo)
  {
    hide Coherent, RolePartition, Pending, ControlPlanes, PostAll;
    PartitionIsWhole(f);
    CountAfterTry(f, todo);
    AllLandIff(f, todo);
  }

  // ---------- a report that takes a listed MAC away ----------

  /** A run in which reports come at any moment. */
  ghost predicate AnyRun(expected: nat, ss: seq<State>, evs: seq<Event>) {
    && |ss| == |evs| + 1
    && forall i :: 0 <= i < |evs| ==> Step(expected, ss[i], evs[i], ss[i + 1])
  }

  /** Two reports of one machine, the second without the MAC that the first booted from. */
  ghost predicate Replaced(p: Post, q: Post) {
    && Acceptable(EMPTY_FLEET, p) && Acceptable(Discover(EMPTY_FLEET, p), q) && p.uuid == q.uuid
    && p.bootMac in MacsOf(p.nics) && q.bootMac in MacsOf(q.nics) && p.bootMac !in MacsOf(q.nics)
  }

  const SOME_UUID: string := "00000000-0000-0000-0000-000000000001"

  /** A report of one machine with one interface of that MAC. */
  function OneNicReport(mac: string): Post {
    Post(SOME_UUID, mac, [PostedNic(mac, "eth0", 24, "10.0.0.1", "10.0.0.1/24", "10.0.0.254", None)], None, [])
  }

  lemma DottedFrom(head: string, rest: string, fields: nat)
    requires IsOctet(head) && fields > 0 && IsDotted(rest, fields)
    ensures IsDotted(head + "." + rest, fields + 1)
  {
    var s := head + "." + rest;
    assert s[|head|] == '.' && s[..|head|] == head && s[|head| + 1..] == rest;
  }

  lemma SomeIpv4()
    ensures IsIpv4("10.0.0.1")
  {
    hide IsOctet, IsDotted;
    DottedFrom("0", "1", 1);
    var two := "0" + "." + "1";
    DottedFrom("0", two, 2);
    var three := "0" + "." + two;
    DottedFrom("10", three, 3);
    FourFields();
  }

  lemma FourFields()
    ensures "10" + "." + ("0" + "." + ("0" + "." + "1")) == "10.0.0.1"
  {}

  lemma OneNic(mac: string)
    requires IsMac(mac)
    ensures var p := OneNicReport(mac);
      && MacsOf(p.nics) == {mac} && MacsDistinct(p.nics) && IsUuid(p.uuid) && p.bootMac == mac
      && (forall n :: n in p.nics ==> WellFormedNic(n))
  {
    hide IsMac, IsIpv4, IsUuid;
    SomeIpv4();
    SomeUuid();
    SomeMac(mac);
    var p := OneNicReport(mac);
    assert p.nics[0] in p.nics;
    assert forall n :: n in p.nics ==> n == p.nics[0];
  }

  lemma SomeUuid()
    ensures IsUuid(SOME_UUID)
  {}

  lemma SomeMac(mac: string)
    ensures IsMac(mac) ==> mac != ""
  {}

  lemma OneNicAccepted(f: Fleet, mac: string)
    requires IsMac(mac) && forall u :: u in f.hosts ==> u == SOME_UUID
    ensures Acceptable(f, OneNicReport(mac)) && MacsOf(OneNicReport(mac).nics) == {mac}
  {
    OneNic(mac);
    hide IsMac, IsUuid, WellFormedNic, MacsDistinct, MacsOf;
  }

  /** A network card is exchanged: such reports exist. */
  lemma CardExchanged()
    ensures Replaced(OneNicReport("00:00:00:00:00:01"), OneNicReport("00:00:00:00:00:02"))
  {
    hide *;
    TwoMacs();
    ExchangeAccepted("00:00:00:00:00:01", "00:00:00:00:00:02");
  }

  lemma TwoMacs()
    ensures IsMac("00:00:00:00:00:01") && IsMac("00:00:00:00:00:02") && "00:00:00:00:00:01" != "00:00:00:00:00:02"
  {
    assert "00:00:00:00:00:01"[16] != "00:00:00:00:00:02"[16];
  }

  lemma ExchangeAccepted(a: string, b: string)
    requires IsMac(a) && IsMac(b) && a != b
    ensures Replaced(OneNicReport(a), OneNicReport(b))
  {
    hide IsMac, Acceptable, Discover, MacsOf;
    var f := Discover(EMPTY_FLEET, OneNicReport(a));
    OnlyReported(OneNicReport(a));
    OneNicAccepted(EMPTY_FLEET, a);
    OneNicAccepted(f, b);
  }

  lemma OnlyReported(p: Post)
    requires p.Post?
    ensures Discover(EMPTY_FLEET, p).hosts.Keys <= {p.uuid}
  {}

  lemma BootOfReport(f: Fleet, p: Post)
    requires Acceptable(f, p) && p.bootMac in MacsOf(p.nics)
    ensures var h := Discover(f, p).hosts[p.uuid];
      && HasBoot(h) && forall m :: Owns(h, m) <==> m in MacsOf(p.nics)
    ensures BootNic(Discover(f, p).hosts[p.uuid]).mac == p.bootMac
  {
    OwnsAfterReport(f, p);
    var n :| n in p.nics && n.mac != "" && n.mac == p.bootMac;
    var h := Discover(f, p).hosts[p.uuid];
    assert NicOf(n, p.bootMac) in h.nics && NicOf(n, p.bootMac).asBoot;
    var b := BootNic(h);
    var m :| m in p.nics && m.mac != "" && NicOf(m, p.bootMac) == b;
  }

  /** The one machine as each of the two reports leaves it. */
  lemma AfterReplacing(p: Post, q: Post)
    requires Replaced(p, q)
    ensures var f, g := Discover(EMPTY_FLEET, p), Discover(Discover(EMPTY_FLEET, p), q);
      && p.Post? && q.Post? && p.uuid == q.uuid
      && f.hosts.Keys == {p.uuid} && g.hosts.Keys == {p.uuid} && HasBoot(f.hosts[p.uuid]) && HasBoot(g.hosts[p.uuid])
      && ControlPlanes(f) == {} && Enumerates([p.uuid], Available(f))
      && ControlPlanes(g) == {} && Nodes(g) == {} && Enumerates([p.uuid], Available(g)) && g.hosts[p.uuid].roles == multiset{}
      && !Owns(g.hosts[p.uuid], BootNic(f.hosts[p.uuid]).mac)
  {
    var u := p.uuid;
    var f := Discover(EMPTY_FLEET, p);
    var g := Discover(f, q);
    BootOfReport(EMPTY_FLEET, p);
    BootOfReport(f, q);
    assert f.hosts.Keys == {u} && g.hosts.Keys == {u} && f.hosts[u].roles == multiset{} && g.hosts[u].roles == multiset{};
    hide Discover, Acceptable;
    TheOnlyOne(f, u);
    TheOnlyOne(g, u);
  }

  /** Such a report between the listing and its POST: the plan believes its one control
      plane is placed, the POST named nobody, and the machine becomes a node. */
  lemma NodeBesideNoControlPlane(p: Post, q: Post) returns (ss: seq<State>, evs: seq<Event>)
    requires Replaced(p, q)
    ensures AnyRun(1, ss, evs) && ss[0] == State(EMPTY_FLEET, Idle, NO_FILES)
    ensures forall i :: 0 <= i < |evs| ==> NoFault(evs[i])
    ensures var f := ss[|ss| - 1].fleet;
      ControlPlanes(f) == {} && Nodes(f) == {p.uuid} && ss[|ss| - 1].phase == SyncDue
  {
    AfterReplacing(p, q);
    hide *;
    var u := p.uuid;
    var f1 := Discover(EMPTY_FLEET, p);
    var f2 := Discover(f1, q);
    var n1, n2 := BootNic(f1.hosts[u]), BootNic(f2.hosts[u]);
    var f3 := Schedule(f2, n2.mac, NODE_ROLES);
    NodeAlone(f2, f3, u, n2);
    ScheduleUnknown(f2, n1.mac, CONTROL_PLANE_ROLES);
    var early, late := ListedStates(f1, n1.mac), LateStates(f2, f3, n1.mac, n2.mac);
    ss := early + late;
    evs := ReplacingEvents(p, q, n1, n2);
    ListedSteps(p, f1, n1);
    PostedForNobody(q, f1, f2, f3, n1.mac, n2.mac);
    NodeSteps(u, f2, f3, n1.mac, n2);
    Arranged(p, q, early, late, n1, n2);
  }

  const NO_FILES: map<(Marker, nat), string> := map[]

  ghost function ListedStates(f: Fleet, mac: string): (r: seq<State>)
    ensures |r| == 4 && r[0] == State(EMPTY_FLEET, Idle, NO_FILES) && r[3] == State(f, PostingControlPlanes([mac]), NO_FILES)
  {
    [State(EMPTY_FLEET, Idle, NO_FILES), State(f, Idle, NO_FILES), State(f, Short, NO_FILES), State(f, PostingControlPlanes([mac]), NO_FILES)]
  }

  ghost function LateStates(f: Fleet, g: Fleet, mac: string, nodeMac: string): (r: seq<State>)
    ensures |r| == 7 && r[6] == State(g, SyncDue, NO_FILES)
  {
    [State(f, PostingControlPlanes([mac]), NO_FILES), State(f, PostingControlPlanes([]), NO_FILES), State(f, NodesDue, NO_FILES),
     State(f, NodesCounted, NO_FILES), State(f, PostingNodes([nodeMac]), NO_FILES), State(g, PostingNodes([]), NO_FILES), State(g, SyncDue, NO_FILES)]
  }

  lemma ListedSteps(p: Post, f: Fleet, n: Nic)
    requires p.Post? && f == Discover(EMPTY_FLEET, p) && f.hosts.Keys == {p.uuid} && n in f.hosts[p.uuid].nics
    requires ControlPlanes(f) == {} && Enumerates([p.uuid], Available(f))
    ensures var ss := ListedStates(f, n.mac);
      && Step(1, ss[0], Discovery(p), ss[1]) && Step(1, ss[1], CountControlPlanes, ss[2])
      && Step(1, ss[2], FetchForControlPlanes([p.uuid], [n]), ss[3])
  {
    ListOfOne(n);
    hide Discover, InOrder, Enumerates, Available, ControlPlanes, HasBoot;
  }

  lemma PostedForNobody(q: Post, f1: Fleet, f2: Fleet, f3: Fleet, mac: string, nodeMac: string)
    requires f2 == Discover(f1, q) && Schedule(f2, mac, CONTROL_PLANE_ROLES) == f2
    ensures var ss := LateStates(f2, f3, mac, nodeMac);
      && Step(1, State(f1, PostingControlPlanes([mac]), NO_FILES), Discovery(q), ss[0])
      && Step(1, ss[0], PostControlPlane(Returned), ss[1]) && Step(1, ss[1], ControlPlanesPosted, ss[2])
  {
    assert [mac][1..] == [];
    hide Discover, Schedule;
  }

  lemma NodeSteps(u: string, f2: Fleet, f3: Fleet, mac: string, n: Nic)
    requires f2.hosts.Keys == {u} && n in f2.hosts[u].nics && Nodes(f2) == {} && Enumerates([u], Available(f2))
    requires Schedule(f2, n.mac, NODE_ROLES) == f3
    ensures var ss := LateStates(f2, f3, mac, n.mac);
      && Step(1, ss[2], CountNodes, ss[3]) && Step(1, ss[3], FetchForNodes([u], [n]), ss[4])
      && Step(1, ss[4], PostNode(Returned, PostingNodes([])), ss[5]) && Step(1, ss[5], NodesPosted, ss[6])
  {
    ListOfOne(n);
    assert [n.mac][1..] == [];
    hide Schedule, InOrder, Enumerates, Available, Nodes, HasBoot;
  }

  ghost function ReplacingEvents(p: Post, q: Post, n: Nic, k: Nic): (r: seq<Event>)
    requires p.Post?
    ensures forall i :: 0 <= i < |r| ==> NoFault(r[i])
  {
    [Discovery(p), CountControlPlanes, FetchForControlPlanes([p.uuid], [n]), Discovery(q),
     PostControlPlane(Returned), ControlPlanesPosted, CountNodes, FetchForNodes([p.uuid], [k]),
     PostNode(Returned, PostingNodes([])), NodesPosted]
  }

  lemma Arranged(p: Post, q: Post, ss: seq<State>, tt: seq<State>, n: Nic, k: Nic)
    requires p.Post? && |ss| == 4 && |tt| == 7
    requires Step(1, ss[0], Discovery(p), ss[1]) && Step(1, ss[1], CountControlPlanes, ss[2])
    requires Step(1, ss[2], FetchForControlPlanes([p.uuid], [n]), ss[3]) && Step(1, ss[3], Discovery(q), tt[0])
    requires Step(1, tt[0], PostControlPlane(Returned), tt[1]) && Step(1, tt[1], ControlPlanesPosted, tt[2])
    requires Step(1, tt[2], CountNodes, tt[3]) && Step(1, tt[3], FetchForNodes([p.uuid], [k]), tt[4])
    requires Step(1, tt[4], PostNode(Returned, PostingNodes([])), tt[5]) && Step(1, tt[5], NodesPosted, tt[6])
    ensures AnyRun(1, ss + tt, ReplacingEvents(p, q, n, k))
  {
    hide Step;
    TwoParts(ss, tt, ReplacingEvents(p, q, n, k));
  }

  lemma TwoParts(ss: seq<State>, tt: seq<State>, evs: seq<Event>)
    requires |ss| == 4 && |tt| == 7 && |evs| == 10
    requires forall i :: 0 <= i < 3 ==> Step(1, ss[i], evs[i], ss[i + 1])
    requires Step(1, ss[3], evs[3], tt[0])
    requires forall i :: 0 <= i < 6 ==> Step(1, tt[i], evs[i + 4], tt[i + 1])
    ensures AnyRun(1, ss + tt, evs)
  {
    hide Step;
    var all := ss + tt;
    forall i | 0 <= i < |evs| ensures Step(1, all[i], evs[i], all[i + 1]) {
      if i > 3 { assert all[i] == tt[i - 4] && all[i + 1] == tt[i - 3] && evs[i - 4 + 4] == evs[i]; }
    }
  }

  lemma ListOfOne(n: Nic)
    ensures InOrder([n]) == [n] && MacList(InOrder([n])) == [n.mac] && MacList(InOrder([n]))[..1] == [n.mac]
  {
    InOrderPermutes([n]);
    assert multiset(InOrder([n])) == multiset{n};
    assert InOrder([n])[0] in multiset{n};
    assert [n.mac][1..] == [];
  }

  lemma TheOnlyOne(f: Fleet, u: string)
    requires f.hosts.Keys == {u} && f.hosts[u].roles == multiset{} && HasBoot(f.hosts[u])
    ensures ControlPlanes(f) == {} && Nodes(f) == {} && Available(f) == {u} && Enumerates([u], Available(f))
  {
    Kinds(f.hosts[u]);
    hide RunsControlPlane;
  }

  lemma NodeAlone(f: Fleet, g: Fleet, u: string, n: Nic)
    requires f.hosts.Keys == {u} && f.hosts[u].roles == multiset{} && n in f.hosts[u].nics && g == Schedule(f, n.mac, NODE_ROLES)
    ensures ControlPlanes(g) == {} && Nodes(g) == {u}
  {
    assert Owns(f.hosts[u], n.mac);
    NewBundle(f.hosts[u]);
    Kinds(g.hosts[u]);
    hide RunsControlPlane;
  }
}
