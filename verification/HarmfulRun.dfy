/** A run in which a POST is harmful: between the listing of a free machine and its POST two
    reports move its MAC to a control plane. No fault occurs, and yet one machine ends up
    with the roles of both bundles, no control plane is left, and its group file stays. */
module HarmfulRun {
  import opened Prelude
  import opened Machines
  import opened Queries
  import opened Scheduling
  import opened PlanRun
  import opened PlanSafety
  import opened PlanHazards
  import opened PlanHistory
  import opened GroupFiles

  const FIRST: string := "00000000-0000-0000-0000-000000000001"
  const SECOND: string := "00000000-0000-0000-0000-000000000002"

  function Card(mac: string): PostedNic {
    PostedNic(mac, "eth0", 24, "10.0.0.1", "10.0.0.1/24", "10.0.0.254", None)
  }

  /** A report of a machine with one card, and with two of which it boots from the first. */
  function OneCard(uuid: string, mac: string): Post {
    Post(uuid, mac, [Card(mac)], None, [])
  }

  function TwoCards(uuid: string, mac: string, other: string): Post {
    Post(uuid, mac, [Card(mac), Card(other)], None, [])
  }

  function BootCard(mac: string): Nic {
    NicOf(Card(mac), mac)
  }

  ghost function HostWith(nics: set<Nic>, roles: multiset<Role>): Host {
    Host(nics, multiset{}, multiset{}, roles)
  }

  ghost function One(h: Host): Fleet {
    Fleet(map[FIRST := h], map[])
  }

  ghost function Two(h: Host, k: Host): Fleet {
    Fleet(map[FIRST := h, SECOND := k], map[])
  }

  ghost predicate ThreeMacs(a: string, b: string, c: string) {
    IsMac(a) && IsMac(b) && IsMac(c) && a != b && b != c && a != c
  }

  lemma Uuids()
    ensures IsUuid(FIRST) && IsUuid(SECOND) && FIRST != SECOND
  {
    assert FIRST[35] != SECOND[35];
  }

  // ---------- the reports ----------

  lemma CardFormed(mac: string)
    requires IsMac(mac)
    ensures WellFormedNic(Card(mac)) && mac != ""
  {
    hide IsDotted, IsHex;
    SomeIpv4();
  }

  lemma OneCardSays(uuid: string, mac: string)
    requires mac != ""
    ensures MacsDistinct(OneCard(uuid, mac).nics) && MacsOf(OneCard(uuid, mac).nics) == {mac}
    ensures NicsOf(OneCard(uuid, mac).nics, mac) == {BootCard(mac)}
    ensures forall n :: n in OneCard(uuid, mac).nics ==> n == Card(mac)
  {
    var nics := OneCard(uuid, mac).nics;
    assert nics[0] in nics;
    assert forall n :: n in nics ==> n == nics[0];
  }

  lemma TwoCardsSay(uuid: string, mac: string, other: string)
    requires mac != "" && other != "" && mac != other
    ensures MacsDistinct(TwoCards(uuid, mac, other).nics) && MacsOf(TwoCards(uuid, mac, other).nics) == {mac, other}
    ensures NicsOf(TwoCards(uuid, mac, other).nics, mac) == {BootCard(mac), NicOf(Card(other), mac)}
    ensures forall n :: n in TwoCards(uuid, mac, other).nics ==> n == Card(mac) || n == Card(other)
  {
    var nics := TwoCards(uuid, mac, other).nics;
    assert nics[0] in nics && nics[1] in nics;
    assert forall n :: n in nics ==> n == nics[0] || n == nics[1];
  }

  /** An accepted report without disks and links. */
  lemma PlainReport(f: Fleet, p: Post)
    requires p.Post? && p.disks == None && p.links == [] && IsUuid(p.uuid) && MacsDistinct(p.nics)
    requires forall n :: n in p.nics ==> WellFormedNic(n)
    requires forall mac :: mac in MacsOf(p.nics) ==> !OwnedElsewhere(f, p.uuid, mac)
    ensures Acceptable(f, p)
    ensures Discover(f, p) == Fleet(f.hosts[p.uuid := HostWith(NicsOf(p.nics, p.bootMac), RolesHeld(f, p.uuid))], f.chassis)
  {
    hide IsUuid, WellFormedNic, MacsDistinct, OwnedElsewhere, NicsOf;
  }

  ghost predicate FreeOf(h: Host, mac: string) {
    forall n :: n in h.nics ==> n.mac != mac
  }

  /** The only machine besides the reported one does not own the MAC. */
  lemma NotElsewhere(f: Fleet, uuid: string, other: string, mac: string)
    requires forall u :: u in f.hosts && u != uuid ==> u == other
    requires other in f.hosts && other != uuid ==> FreeOf(f.hosts[other], mac)
    ensures !OwnedElsewhere(f, uuid, mac)
  {}

  lemma FirstReport(a: string)
    requires IsMac(a)
    ensures Discover(EMPTY_FLEET, OneCard(FIRST, a)) == One(HostWith({BootCard(a)}, multiset{}))
  {
    hide IsMac, IsUuid, MacsDistinct, MacsOf, NicsOf, WellFormedNic, Discover, OwnedElsewhere;
    Uuids();
    CardFormed(a);
    OneCardSays(FIRST, a);
    NotElsewhere(EMPTY_FLEET, FIRST, FIRST, a);
    PlainReport(EMPTY_FLEET, OneCard(FIRST, a));
  }

  lemma SecondReport(h: Host, b: string)
    requires IsMac(b) && FreeOf(h, b)
    ensures Discover(One(h), OneCard(SECOND, b)) == Two(h, HostWith({BootCard(b)}, multiset{}))
  {
    hide IsMac, IsUuid, MacsDistinct, MacsOf, NicsOf, WellFormedNic, Discover, FreeOf, OwnedElsewhere;
    Uuids();
    CardFormed(b);
    OneCardSays(SECOND, b);
    NotElsewhere(One(h), SECOND, FIRST, b);
    PlainReport(One(h), OneCard(SECOND, b));
  }

  lemma CardReplaced(h: Host, k: Host, c: string)
    requires IsMac(c) && FreeOf(h, c) && k.roles == multiset{}
    ensures Discover(Two(h, k), OneCard(SECOND, c)) == Two(h, HostWith({BootCard(c)}, multiset{}))
  {
    hide IsMac, IsUuid, MacsDistinct, MacsOf, NicsOf, WellFormedNic, Discover, FreeOf, OwnedElsewhere;
    Uuids();
    CardFormed(c);
    OneCardSays(SECOND, c);
    NotElsewhere(Two(h, k), SECOND, FIRST, c);
    PlainReport(Two(h, k), OneCard(SECOND, c));
  }

  lemma CardAdded(h: Host, k: Host, a: string, b: string)
    requires IsMac(a) && IsMac(b) && a != b && FreeOf(k, a) && FreeOf(k, b)
    ensures Discover(Two(h, k), TwoCards(FIRST, a, b)) == Two(HostWith({BootCard(a), NicOf(Card(b), a)}, h.roles), k)
  {
    hide IsMac, IsUuid, MacsDistinct, MacsOf, NicsOf, WellFormedNic, Discover, FreeOf, OwnedElsewhere;
    Uuids();
    CardFormed(a);
    CardFormed(b);
    TwoCardsSay(FIRST, a, b);
    NotElsewhere(Two(h, k), FIRST, SECOND, a);
    NotElsewhere(Two(h, k), FIRST, SECOND, b);
    PlainReport(Two(h, k), TwoCards(FIRST, a, b));
  }

  // ---------- the POSTs ----------

  const BOTH_BUNDLES: multiset<Role> := multiset{EtcdMember, KubernetesControlPlane, KubernetesNode}

  lemma OneTurns(h: Host, mac: string)
    requires Owns(h, mac) && h.roles == multiset{}
    ensures Schedule(One(h), mac, CONTROL_PLANE_ROLES) == One(h.(roles := multiset{EtcdMember, KubernetesControlPlane}))
  {
    BundleValues(h);
    assert AddRoles(h, CONTROL_PLANE_ROLES) == h.(roles := multiset{EtcdMember, KubernetesControlPlane});
    hide Owns, AddRoles;
    assert Schedule(One(h), mac, CONTROL_PLANE_ROLES).hosts == One(AddRoles(h, CONTROL_PLANE_ROLES)).hosts;
  }

  lemma FirstTurns(h: Host, k: Host, mac: string)
    requires Owns(h, mac) && !Owns(k, mac) && h.roles == multiset{EtcdMember, KubernetesControlPlane}
    ensures Schedule(Two(h, k), mac, NODE_ROLES) == Two(h.(roles := BOTH_BUNDLES), k)
  {
    Uuids();
    BundleValues(h);
    assert AddRoles(h, NODE_ROLES) == h.(roles := BOTH_BUNDLES);
    hide Owns, AddRoles, IsUuid;
    assert Schedule(Two(h, k), mac, NODE_ROLES).hosts == Two(AddRoles(h, NODE_ROLES), k).hosts;
  }

  // ---------- what the views list ----------

  lemma KindsOf(h: Host)
    ensures h.roles == multiset{} ==> !RunsControlPlane(h) && KubernetesNode !in h.roles
    ensures h.roles == multiset{EtcdMember, KubernetesControlPlane} ==> RunsControlPlane(h) && KubernetesNode !in h.roles
    ensures h.roles == BOTH_BUNDLES ==> !RunsControlPlane(h)
  {
    assert KubernetesNode in BOTH_BUNDLES && KubernetesNode !in CONTROL_PLANE_ROLES;
    Kinds(h);
    assert multiset(CONTROL_PLANE_ROLES) == multiset{EtcdMember, KubernetesControlPlane};
  }

  lemma ViewsOfOne(h: Host)
    requires HasBoot(h)
    ensures h.roles == multiset{} ==> ControlPlanes(One(h)) == {} && Enumerates([FIRST], Available(One(h)))
    ensures h.roles == multiset{EtcdMember, KubernetesControlPlane} ==>
              ControlPlanes(One(h)) == {FIRST} && Nodes(One(h)) == {} && Enumerates([FIRST], {FIRST}) && Enumerates([], Available(One(h)))
  {
    KindsOf(h);
    hide RunsControlPlane, HasBoot;
    var f := One(h);
    assert f.hosts.Keys == {FIRST};
    if h.roles == multiset{} { assert Available(f) == {FIRST}; }
    if h.roles == multiset{EtcdMember, KubernetesControlPlane} { assert Available(f) == {}; }
  }

  lemma ViewsOfTwo(h: Host, k: Host)
    requires HasBoot(h) && HasBoot(k) && h.roles == multiset{EtcdMember, KubernetesControlPlane} && k.roles == multiset{}
    ensures ControlPlanes(Two(h, k)) == {FIRST} && Nodes(Two(h, k)) == {} && Enumerates([SECOND], Available(Two(h, k)))
  {
    Uuids();
    KindsOf(h);
    KindsOf(k);
    hide RunsControlPlane, HasBoot, IsUuid;
    var f := Two(h, k);
    assert f.hosts.Keys == {FIRST, SECOND};
    assert Available(f) == {SECOND};
  }

  lemma BootCardBoots(mac: string, h: Host)
    requires BootCard(mac) in h.nics && (forall n :: n in h.nics && n.asBoot ==> n == BootCard(mac))
    ensures HasBoot(h) && BootNic(h) == BootCard(mac) && Owns(h, mac)
  {
    assert BootCard(mac).asBoot && BootCard(mac).mac == mac;
  }

  // ---------- runs without faults ----------

  /** Some run without faults, with reports at any moment, leads from s to t. */
  ghost predicate Leads(s: State, t: State) {
    exists ss, evs :: FaultFree(ss, evs) && ss[0] == s && ss[|ss| - 1] == t
  }

  ghost predicate FaultFree(ss: seq<State>, evs: seq<Event>) {
    AnyRun(1, ss, evs) && forall i :: 0 <= i < |evs| ==> NoFault(evs[i])
  }

  lemma LeadsNowhere(s: State)
    ensures Leads(s, s)
  {
    assert FaultFree([s], []);
  }

  lemma LeadsOn(s: State, t: State, ev: Event, r: State)
    requires Leads(s, t) && Step(1, t, ev, r) && NoFault(ev)
    ensures Leads(s, r)
  {
    hide Step, NoFault;
    var ss, evs :| FaultFree(ss, evs) && ss[0] == s && ss[|ss| - 1] == t;
    var tt, fvs := ss + [r], evs + [ev];
    forall i | 0 <= i < |fvs| ensures Step(1, tt[i], fvs[i], tt[i + 1]) {}
    assert FaultFree(tt, fvs) && tt[0] == s && tt[|tt| - 1] == r;
  }

  // ---------- the run ----------

  /** The first machine is placed and its group file written. */
  lemma PlacedSteps(h: Host, k: Host, n: Nic)
    requires HasBoot(h) && n == BootNic(h) && h.roles == multiset{} && k == h.(roles := multiset{EtcdMember, KubernetesControlPlane})
    requires Schedule(One(h), n.mac, CONTROL_PLANE_ROLES) == One(k)
    ensures Leads(State(One(h), Idle, map[]), State(One(k), SyncDue, map[]))
  {
    hide Leads, HasBoot, Schedule, ControlPlanes, Nodes, Available, Enumerates, InOrder, One;
    ViewsOfOne(h);
    var f, files := One(h), map[];
    LeadsNowhere(State(f, Idle, files));
    ListOfOne(n);
    CountsNone(f, files);
    LeadsOn(State(f, Idle, files), State(f, Idle, files), CountControlPlanes, State(f, Short, files));
    FetchesOne(h, n, files);
    LeadsOn(State(f, Idle, files), State(f, Short, files), FetchForControlPlanes([FIRST], [n]), State(f, PostingControlPlanes([n.mac]), files));
    PostsOne(f, One(k), n.mac, files);
    LeadsOn(State(f, Idle, files), State(f, PostingControlPlanes([n.mac]), files), PostControlPlane(Returned), State(One(k), PostingControlPlanes([]), files));
    LeadsOn(State(f, Idle, files), State(One(k), PostingControlPlanes([]), files), ControlPlanesPosted, State(One(k), NodesDue, files));
    BootKeptFor(h, k);
    ViewsOfOne(k);
    NoNodes(One(k), files);
    LeadsOn(State(f, Idle, files), State(One(k), NodesDue, files), CountNodes, State(One(k), NodesCounted, files));
    LeadsOn(State(f, Idle, files), State(One(k), NodesCounted, files), FetchForNodes([], []), State(One(k), PostingNodes([]), files));
    LeadsOn(State(f, Idle, files), State(One(k), PostingNodes([]), files), NodesPosted, State(One(k), SyncDue, files));
  }

  lemma BootKeptFor(h: Host, k: Host)
    requires k.nics == h.nics && HasBoot(h)
    ensures HasBoot(k)
  {}

  lemma CountsNone(f: Fleet, files: map<(Marker, nat), string>)
    requires ControlPlanes(f) == {}
    ensures Step(1, State(f, Idle, files), CountControlPlanes, State(f, Short, files))
  {
    hide ControlPlanes;
    assert AllHaveBoot(f, {});
  }

  lemma FetchesOne(h: Host, n: Nic, files: map<(Marker, nat), string>)
    requires Enumerates([FIRST], Available(One(h))) && n in h.nics && MacList(InOrder([n]))[..1] == [n.mac]
    ensures Step(1, State(One(h), Short, files), FetchForControlPlanes([FIRST], [n]), State(One(h), PostingControlPlanes([n.mac]), files))
  {
    hide Available, Enumerates, InOrder;
  }

  lemma PostsOne(f: Fleet, g: Fleet, mac: string, files: map<(Marker, nat), string>)
    requires Schedule(f, mac, CONTROL_PLANE_ROLES) == g
    ensures Step(1, State(f, PostingControlPlanes([mac]), files), PostControlPlane(Returned), State(g, PostingControlPlanes([]), files))
    ensures Step(1, State(g, PostingControlPlanes([]), files), ControlPlanesPosted, State(g, NodesDue, files))
  {
    hide Schedule;
    assert [mac][1..] == [];
  }

  lemma NoNodes(f: Fleet, files: map<(Marker, nat), string>)
    requires Nodes(f) == {} && Enumerates([], Available(f))
    ensures Step(1, State(f, NodesDue, files), CountNodes, State(f, NodesCounted, files))
    ensures Step(1, State(f, NodesCounted, files), FetchForNodes([], []), State(f, PostingNodes([]), files))
    ensures Step(1, State(f, PostingNodes([]), files), NodesPosted, State(f, SyncDue, files))
  {
    hide Nodes, Available, Enumerates;
    assert AllHaveBoot(f, {});
    assert MacList(InOrder([])) == [];
  }

  lemma SyncedSteps(h: Host, n: Nic)
    requires HasBoot(h) && n == BootNic(h) && h.roles == multiset{EtcdMember, KubernetesControlPlane}
    ensures Leads(State(One(h), SyncDue, map[]), State(One(h), Idle, map[(ControlPlaneGroup, 0) := Lower(n.mac)]))
  {
    hide Leads, HasBoot, ControlPlanes, Nodes, Available, Enumerates, InOrder, One;
    var f := One(h);
    var files: map<(Marker, nat), string> := map[(ControlPlaneGroup, 0) := Lower(n.mac)];
    ViewsOfOne(h);
    ListOfOne(n);
    LeadsNowhere(State(f, SyncDue, map[]));
    SyncsOne(h, n, files);
    LeadsOn(State(f, SyncDue, map[]), State(f, SyncDue, map[]), SyncControlPlanes([FIRST], [n], 1), State(f, NodeSyncDue, files));
    SyncsNone(f, files);
    LeadsOn(State(f, SyncDue, map[]), State(f, NodeSyncDue, files), SyncNodes([], [], 0), State(f, NotifyDue, files));
    LeadsOn(State(f, SyncDue, map[]), State(f, NotifyDue, files), Notified, State(f, Idle, files));
  }

  lemma SyncsOne(h: Host, n: Nic, files: map<(Marker, nat), string>)
    requires HasBoot(h) && n == BootNic(h) && ControlPlanes(One(h)) == {FIRST} && Enumerates([FIRST], {FIRST}) && InOrder([n]) == [n]
    requires files == map[(ControlPlaneGroup, 0) := Lower(n.mac)]
    ensures Step(1, State(One(h), SyncDue, map[]), SyncControlPlanes([FIRST], [n], 1), State(One(h), NodeSyncDue, files))
  {
    hide ControlPlanes, Enumerates, InOrder, HasBoot;
    assert Written(map[], ControlPlaneGroup, [n], 0) == map[];
    assert Written(map[], ControlPlaneGroup, [n], 1) == files;
  }

  lemma SyncsNone(f: Fleet, files: map<(Marker, nat), string>)
    requires Nodes(f) == {}
    ensures Step(1, State(f, NodeSyncDue, files), SyncNodes([], [], 0), State(f, NotifyDue, files))
    ensures Step(1, State(f, NotifyDue, files), Notified, State(f, Idle, files))
  {
    hide Nodes;
    assert Enumerates([], {}) && BootNics(f, [], []);
    assert Written(files, NodeGroup, InOrder([]), 0) == files;
  }

  /** The second machine is listed by its one card. */
  lemma ListedAlone(h: Host, k: Host, n: Nic, files: map<(Marker, nat), string>)
    requires HasBoot(h) && HasBoot(k) && n in k.nics && h.roles == multiset{EtcdMember, KubernetesControlPlane} && k.roles == multiset{}
    ensures Leads(State(Two(h, k), Idle, files), State(Two(h, k), PostingNodes([n.mac]), files))
  {
    hide Leads, HasBoot, ControlPlanes, Nodes, Available, Enumerates, InOrder, Two;
    ViewsOfTwo(h, k);
    ListOfOne(n);
    var f := Two(h, k);
    LeadsNowhere(State(f, Idle, files));
    CountsOne(h, k, n, files);
    LeadsOn(State(f, Idle, files), State(f, Idle, files), CountControlPlanes, State(f, NodesDue, files));
    LeadsOn(State(f, Idle, files), State(f, NodesDue, files), CountNodes, State(f, NodesCounted, files));
    LeadsOn(State(f, Idle, files), State(f, NodesCounted, files), FetchForNodes([SECOND], [n]), State(f, PostingNodes([n.mac]), files));
  }

  lemma CountsOne(h: Host, k: Host, n: Nic, files: map<(Marker, nat), string>)
    requires ControlPlanes(Two(h, k)) == {FIRST} && Nodes(Two(h, k)) == {} && Enumerates([SECOND], Available(Two(h, k)))
    requires HasBoot(h) && n in k.nics && MacList(InOrder([n])) == [n.mac]
    ensures var f := Two(h, k);
      && Step(1, State(f, Idle, files), CountControlPlanes, State(f, NodesDue, files))
      && Step(1, State(f, NodesDue, files), CountNodes, State(f, NodesCounted, files))
      && Step(1, State(f, NodesCounted, files), FetchForNodes([SECOND], [n]), State(f, PostingNodes([n.mac]), files))
  {
    Uuids();
    hide ControlPlanes, Nodes, Available, Enumerates, InOrder, HasBoot, IsUuid;
    assert AllHaveBoot(Two(h, k), {FIRST}) && AllHaveBoot(Two(h, k), {});
  }

  lemma LeadsFurther(s: State, t: State, r: State)
    requires Leads(s, t) && Leads(t, r)
    ensures Leads(s, r)
  {
    hide Step, NoFault;
    var ss, evs :| FaultFree(ss, evs) && ss[0] == s && ss[|ss| - 1] == t;
    var tt, fvs :| FaultFree(tt, fvs) && tt[0] == t && tt[|tt| - 1] == r;
    var all, both := ss + tt[1..], evs + fvs;
    forall i | 0 <= i < |both| ensures Step(1, all[i], both[i], all[i + 1]) && NoFault(both[i]) {
      if i >= |evs| {
        assert all[i] == tt[i - |evs|] && all[i + 1] == tt[i - |evs| + 1] && both[i] == fvs[i - |evs|];
      }
    }
    assert FaultFree(all, both) && all[0] == s && all[|all| - 1] == r;
  }

  lemma ReportLeads(s: State, f: Fleet, p: Post)
    requires Discover(s.fleet, p) == f
    ensures Step(1, s, Discovery(p), s.(fleet := f)) && NoFault(Discovery(p))
  {
    hide Discover;
  }

  /** Before the harmful POST: the plan is about to post the MAC b for the second machine,
      but it now belongs to the first, a control plane. */
  ghost function Before(a: string, b: string, c: string): State {
    State(Two(HostWith({BootCard(a), NicOf(Card(b), a)}, multiset{EtcdMember, KubernetesControlPlane}), HostWith({BootCard(c)}, multiset{})),
          PostingNodes([b]), map[(ControlPlaneGroup, 0) := Lower(a)])
  }

  ghost function Afterwards(a: string, b: string, c: string): State {
    State(Two(HostWith({BootCard(a), NicOf(Card(b), a)}, BOTH_BUNDLES), HostWith({BootCard(c)}, multiset{})),
          PostingNodes([]), map[(ControlPlaneGroup, 0) := Lower(a)])
  }

  lemma FirstPart(a: string)
    requires IsMac(a)
    ensures Leads(INITIAL, State(One(HostWith({BootCard(a)}, multiset{EtcdMember, KubernetesControlPlane})), Idle, map[(ControlPlaneGroup, 0) := Lower(a)]))
  {
    hide IsMac, Leads, Discover, Schedule, HasBoot, One, Owns, BootNic, Lower;
    var h, k := HostWith({BootCard(a)}, multiset{}), HostWith({BootCard(a)}, multiset{EtcdMember, KubernetesControlPlane});
    FirstReport(a);
    BootCardBoots(a, h);
    BootCardBoots(a, k);
    OneTurns(h, a);
    ReportLeads(INITIAL, One(h), OneCard(FIRST, a));
    LeadsNowhere(INITIAL);
    LeadsOn(INITIAL, INITIAL, Discovery(OneCard(FIRST, a)), State(One(h), Idle, map[]));
    PlacedSteps(h, k, BootCard(a));
    LeadsFurther(INITIAL, State(One(h), Idle, map[]), State(One(k), SyncDue, map[]));
    SyncedSteps(k, BootCard(a));
    LeadsFurther(INITIAL, State(One(k), SyncDue, map[]), State(One(k), Idle, map[(ControlPlaneGroup, 0) := Lower(a)]));
  }

  lemma SecondPart(a: string, b: string, c: string)
    requires ThreeMacs(a, b, c)
    ensures Leads(State(One(HostWith({BootCard(a)}, multiset{EtcdMember, KubernetesControlPlane})), Idle, map[(ControlPlaneGroup, 0) := Lower(a)]),
                  Before(a, b, c))
  {
    hide IsMac, Leads, Discover, HasBoot, One, Two, Lower, BootNic, FreeOf, Step;
    var h := HostWith({BootCard(a)}, multiset{EtcdMember, KubernetesControlPlane});
    var k, l := HostWith({BootCard(b)}, multiset{}), HostWith({BootCard(c)}, multiset{});
    var m := HostWith({BootCard(a), NicOf(Card(b), a)}, h.roles);
    var files: map<(Marker, nat), string> := map[(ControlPlaneGroup, 0) := Lower(a)];
    var s := State(One(h), Idle, files);
    BootCardBoots(a, h);
    BootCardBoots(b, k);
    FreeCards(a, b, c);
    SecondReport(h, b);
    ReportLeads(s, Two(h, k), OneCard(SECOND, b));
    LeadsNowhere(s);
    LeadsOn(s, s, Discovery(OneCard(SECOND, b)), State(Two(h, k), Idle, files));
    ListedAlone(h, k, BootCard(b), files);
    LeadsFurther(s, State(Two(h, k), Idle, files), State(Two(h, k), PostingNodes([b]), files));
    CardReplaced(h, k, c);
    ReportLeads(State(Two(h, k), PostingNodes([b]), files), Two(h, l), OneCard(SECOND, c));
    LeadsOn(s, State(Two(h, k), PostingNodes([b]), files), Discovery(OneCard(SECOND, c)), State(Two(h, l), PostingNodes([b]), files));
    CardAdded(h, l, a, b);
    ReportLeads(State(Two(h, l), PostingNodes([b]), files), Two(m, l), TwoCards(FIRST, a, b));
    LeadsOn(s, State(Two(h, l), PostingNodes([b]), files), Discovery(TwoCards(FIRST, a, b)), State(Two(m, l), PostingNodes([b]), files));
  }

  lemma FreeCards(a: string, b: string, c: string)
    requires a != b && b != c && a != c
    ensures FreeOf(HostWith({BootCard(a)}, multiset{EtcdMember, KubernetesControlPlane}), b)
    ensures FreeOf(HostWith({BootCard(a)}, multiset{EtcdMember, KubernetesControlPlane}), c)
    ensures FreeOf(HostWith({BootCard(c)}, multiset{}), a) && FreeOf(HostWith({BootCard(c)}, multiset{}), b)
  {}

  lemma HarmfulStep(a: string, b: string, c: string)
    requires a != b && b != c && a != c
    ensures Step(1, Before(a, b, c), PostNode(Returned, PostingNodes([])), Afterwards(a, b, c))
  {
    var m := HostWith({BootCard(a), NicOf(Card(b), a)}, multiset{EtcdMember, KubernetesControlPlane});
    var l := HostWith({BootCard(c)}, multiset{});
    OwnsBoth(m, l, a, b, c);
    hide Owns, Schedule, Two;
    FirstTurns(m, l, b);
    assert [b][1..] == [];
  }

  lemma OwnsBoth(m: Host, l: Host, a: string, b: string, c: string)
    requires m.nics == {BootCard(a), NicOf(Card(b), a)} && l.nics == {BootCard(c)} && b != c
    ensures Owns(m, b) && !Owns(l, b)
  {
    assert NicOf(Card(b), a).mac == b;
  }

  lemma EndOfTwo(m: Host, l: Host)
    requires m.roles == BOTH_BUNDLES && l.roles == multiset{}
    ensures ControlPlanes(Two(m, l)) == {} && !RolePartition(Two(m, l))
  {
    Uuids();
    KindsOf(m);
    KindsOf(l);
    hide RunsControlPlane, IsUuid;
    var f := Two(m, l);
    assert f.hosts[FIRST] == m && KubernetesNode in BOTH_BUNDLES && EtcdMember in BOTH_BUNDLES;
    assert !HasNoRole(m) && !IsControlPlane(m) && !IsNode(m) by {
      assert |BOTH_BUNDLES| == 3 && |multiset(CONTROL_PLANE_ROLES)| == 2 && |multiset(NODE_ROLES)| == 1;
    }
  }

  lemma StartOfTwo(m: Host, l: Host, b: string)
    requires m.roles == multiset{EtcdMember, KubernetesControlPlane} && Owns(m, b)
    ensures FIRST in ControlPlanes(Two(m, l)) && OwnedBy(Two(m, l), FIRST, b)
  {
    Uuids();
    KindsOf(m);
    hide RunsControlPlane, IsUuid, Owns;
    assert Two(m, l).hosts[FIRST] == m;
  }

  /** Whatever the three MACs, reports of a card that moves from a free machine to a control
      plane are enough: a run without any fault comes to a POST that names a control plane, is not harmless and does not spare
      it; it leaves a machine with three roles, no control plane, and a group file too many. */
  lemma HarmfulPost(a: string, b: string, c: string)
    requires ThreeMacs(a, b, c)
    ensures var s, ev, t := Before(a, b, c), PostNode(Returned, PostingNodes([])), Afterwards(a, b, c);
      && Leads(INITIAL, s) && Step(1, s, ev, t) && NoFault(ev)
      && !DoesNoHarm(s, ev) && !Spares(s, ev)
      && FIRST in t.fleet.hosts && t.fleet.hosts[FIRST].roles == BOTH_BUNDLES
      && ControlPlanes(t.fleet) == {} && !RolePartition(t.fleet) && !FilesInv(t)
  {
    hide *;
    FirstPart(a) by { MacsSay(a, b, c); }
    SecondPart(a, b, c);
    MacsSay(a, b, c);
    LeadsFurther(INITIAL, State(One(HostWith({BootCard(a)}, multiset{EtcdMember, KubernetesControlPlane})), Idle, map[(ControlPlaneGroup, 0) := Lower(a)]),
                 Before(a, b, c));
    HarmfulStep(a, b, c);
    HarmDone(a, b, c);
  }

  /** There are three MACs. */
  lemma SomeMacs()
    ensures ThreeMacs("00:00:00:00:00:01", "00:00:00:00:00:02", "00:00:00:00:00:03")
  {
    var a, b, c := "00:00:00:00:00:01", "00:00:00:00:00:02", "00:00:00:00:00:03";
    assert a[16] != b[16] && b[16] != c[16] && a[16] != c[16];
  }

  lemma MacsSay(a: string, b: string, c: string)
    requires ThreeMacs(a, b, c)
    ensures IsMac(a) && a != b && b != c && a != c
  {}

  lemma HarmDone(a: string, b: string, c: string)
    requires a != b && b != c && a != c
    ensures var s, ev, t := Before(a, b, c), PostNode(Returned, PostingNodes([])), Afterwards(a, b, c);
      && NoFault(ev) && !DoesNoHarm(s, ev) && !Spares(s, ev)
      && FIRST in t.fleet.hosts && t.fleet.hosts[FIRST].roles == BOTH_BUNDLES
      && ControlPlanes(t.fleet) == {} && !RolePartition(t.fleet) && !FilesInv(t)
  {
    var h := HostWith({BootCard(a), NicOf(Card(b), a)}, multiset{EtcdMember, KubernetesControlPlane});
    var m := HostWith({BootCard(a), NicOf(Card(b), a)}, BOTH_BUNDLES);
    var l := HostWith({BootCard(c)}, multiset{});
    OwnsBoth(h, l, a, b, c);
    StartOfTwo(h, l, b);
    EndOfTwo(m, l);
    FirstIs(h, l);
    FirstIs(m, l);
    hide Owns, ControlPlanes, RolePartition, OwnedBy, Two, Numbered;
    NotTheNodeBundle();
    if Fits(Two(m, l), Afterwards(a, b, c).files, ControlPlaneGroup) {
      var k := FitsWith(Two(m, l), Afterwards(a, b, c).files, ControlPlaneGroup);
      HasFile(Afterwards(a, b, c).files, k);
    }
  }

  lemma FirstIs(h: Host, k: Host)
    ensures FIRST in Two(h, k).hosts && Two(h, k).hosts[FIRST] == h
  {
    Uuids();
  }

  lemma NotTheNodeBundle()
    ensures multiset{EtcdMember, KubernetesControlPlane} != multiset(NODE_ROLES) && multiset{EtcdMember, KubernetesControlPlane} != multiset{}
  {
    assert |multiset{EtcdMember, KubernetesControlPlane}| == 2 && |multiset(NODE_ROLES)| == 1;
  }

  lemma HasFile(files: map<(Marker, nat), string>, k: nat)
    requires (ControlPlaneGroup, 0) in files && Numbered(files, ControlPlaneGroup, k)
    ensures k > 0
  {
    assert (ControlPlaneGroup, 0) in files <==> 0 < k;
  }
}
