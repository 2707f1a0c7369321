/** What the database is about, without ids or row order: the machines of the fleet,
    the facts a discovery report states about one of them, and the roles they hold.
    The functions here say what one accepted request does to the whole fleet. */
module Machines {
  import opened Prelude

  datatype Role = EtcdMember | KubernetesControlPlane | KubernetesNode

  const CONTROL_PLANE_ROLES: seq<Role> := [EtcdMember, KubernetesControlPlane]
  const NODE_ROLES: seq<Role> := [KubernetesNode]

  datatype Disk = Disk(path: string, size: int)

  datatype Nic = Nic(mac: string, name: string, netmask: int, ipv4: string, cidrv4: string,
                     gateway: string, asBoot: bool, fqdn: Option<string>)

  /** A chassis port seen through its foreign keys. */
  datatype Link = Link(port: string, chassis: string, mac: string)

  datatype Host = Host(nics: set<Nic>, disks: multiset<Disk>, links: multiset<Link>, roles: multiset<Role>)

  /** Machines by uuid, and the switch chassis known by name with the MAC first reported. */
  datatype Fleet = Fleet(hosts: map<string, Host>, chassis: map<string, string>)

  const EMPTY_FLEET: Fleet := Fleet(map[], map[])

  // ---------- column formats ----------

  predicate IsHex(c: char) {
    '0' <= c <= '9' || 'A' <= c <= 'F' || 'a' <= c <= 'f'
  }

  predicate IsMac(s: string) {
    |s| == 17 && forall i :: 0 <= i < 17 ==> if i % 3 == 2 then s[i] == ':' else IsHex(s[i])
  }

  predicate IsUuid(s: string) {
    |s| == 36 && forall i :: 0 <= i < 36 ==> if i in {8, 13, 18, 23} then s[i] == '-' else IsHex(s[i])
  }

  /** "0" to "255" without leading zeros. */
  predicate IsOctet(s: string) {
    && 1 <= |s| <= 3
    && (forall i :: 0 <= i < |s| ==> '0' <= s[i] <= '9')
    && (|s| > 1 ==> s[0] != '0')
    && (|s| == 3 ==> s[0] == '1' || (s[0] == '2' && (s[1] < '5' || (s[1] == '5' && s[2] <= '5'))))
  }

  predicate IsDotted(s: string, fields: nat) {
    if fields == 0 then false
    else if fields == 1 then IsOctet(s)
    else exists i :: 0 <= i < |s| && s[i] == '.' && IsOctet(s[..i]) && IsDotted(s[i + 1..], fields - 1)
  }

  predicate IsIpv4(s: string) {
    IsDotted(s, 4)
  }

  // ---------- a discovery report ----------

  /** `fqdn` is what the name check made of the reported names. */
  datatype PostedNic = PostedNic(mac: string, name: string, netmask: int, ipv4: string,
                                 cidrv4: string, gateway: string, fqdn: Option<string>)

  datatype PostedLink = PostedLink(nicName: string, chassisName: string, chassisId: string, portId: string)

  /** `Incomplete` lacks one of the required keys. No `links` stands for a report
      without an LLDP file or with an empty one. */
  datatype Post =
    | Incomplete
    | Post(uuid: string, bootMac: string, nics: seq<PostedNic>, disks: Option<seq<Disk>>, links: seq<PostedLink>)

  function DisksOf(p: Post): seq<Disk>
    requires p.Post?
  {
    if p.disks.Some? then p.disks.value else []
  }

  predicate WellFormedNic(n: PostedNic) {
    IsMac(n.mac) && IsIpv4(n.ipv4)
  }

  function NicOf(n: PostedNic, bootMac: string): Nic {
    Nic(n.mac, n.name, n.netmask, n.ipv4, n.cidrv4, n.gateway, n.mac == bootMac, n.fqdn)
  }

  /** The interfaces a report attaches: those that have a MAC. */
  ghost function NicsOf(nics: seq<PostedNic>, bootMac: string): set<Nic> {
    set n | n in nics && n.mac != "" :: NicOf(n, bootMac)
  }

  ghost function MacsOf(nics: seq<PostedNic>): set<string> {
    set n | n in nics && n.mac != "" :: n.mac
  }

  ghost predicate MacsDistinct(nics: seq<PostedNic>) {
    forall i, j :: 0 <= i < j < |nics| && nics[i].mac != "" ==> nics[i].mac != nics[j].mac
  }

  /** The MAC of the last listed interface of that name. */
  ghost function MacNamed(nics: seq<PostedNic>, name: string): Option<string> {
    if nics == [] then None
    else
      var last := nics[|nics| - 1];
      if last.mac != "" && last.name == name then Some(last.mac) else MacNamed(nics[..|nics| - 1], name)
  }

  ghost function ChassisAfter(known: map<string, string>, links: seq<PostedLink>): map<string, string> {
    if links == [] then known
    else
      var last := links[|links| - 1];
      var before := ChassisAfter(known, links[..|links| - 1]);
      if last.chassisName in before then before else before[last.chassisName := last.chassisId]
  }

  /** Every link names a listed interface, and a chassis is introduced by a valid MAC. */
  ghost predicate LinksAcceptable(known: map<string, string>, nics: seq<PostedNic>, links: seq<PostedLink>) {
    links == [] ||
    var last := links[|links| - 1];
    && LinksAcceptable(known, nics, links[..|links| - 1])
    && MacNamed(nics, last.nicName).Some?
    && (last.chassisName in ChassisAfter(known, links[..|links| - 1]) || IsMac(last.chassisId))
  }

  ghost function LinksOf(nics: seq<PostedNic>, links: seq<PostedLink>): multiset<Link> {
    if links == [] then multiset{}
    else
      var last := links[|links| - 1];
      var mac := MacNamed(nics, last.nicName);
      LinksOf(nics, links[..|links| - 1]) + multiset{Link(last.portId, last.chassisName, if mac.Some? then mac.value else "")}
  }

  ghost predicate Owns(h: Host, mac: string) {
    exists n :: n in h.nics && n.mac == mac
  }

  ghost predicate OwnedElsewhere(f: Fleet, uuid: string, mac: string) {
    exists u :: u in f.hosts && u != uuid && Owns(f.hosts[u], mac)
  }

  /** Exactly the reports the database takes. */
  ghost predicate Acceptable(f: Fleet, p: Post) {
    && p.Post?
    && (p.uuid in f.hosts || IsUuid(p.uuid))
    && (forall n :: n in p.nics && n.mac != "" ==> WellFormedNic(n))
    && MacsDistinct(p.nics)
    && (forall mac :: mac in MacsOf(p.nics) ==> !OwnedElsewhere(f, p.uuid, mac))
    && LinksAcceptable(f.chassis, p.nics, p.links)
  }

  ghost function RolesHeld(f: Fleet, uuid: string): multiset<Role> {
    if uuid in f.hosts then f.hosts[uuid].roles else multiset{}
  }

  /** One discovery report: the reported facts replace whatever was known about that
      machine; roles and every other machine stay. A report that is not acceptable
      changes nothing. */
  ghost function Discover(f: Fleet, p: Post): Fleet {
    if Acceptable(f, p) then
      Fleet(f.hosts[p.uuid := Host(NicsOf(p.nics, p.bootMac), multiset(DisksOf(p)),
                                   LinksOf(p.nics, p.links), RolesHeld(f, p.uuid))],
            ChassisAfter(f.chassis, p.links))
    else f
  }

  // ---------- scheduling ----------

  /** The posted roles the machine does not hold yet; a role posted twice counts twice. */
  function NewRoles(roles: seq<Role>, held: multiset<Role>): multiset<Role> {
    if roles == [] then multiset{}
    else
      var last := roles[|roles| - 1];
      NewRoles(roles[..|roles| - 1], held) + (if last in held then multiset{} else multiset{last})
  }

  ghost function AddRoles(h: Host, roles: seq<Role>): Host {
    h.(roles := h.roles + NewRoles(roles, h.roles))
  }

  /** One schedule request, addressed by any MAC of the machine; an unknown MAC is
      logged and ignored. */
  ghost function Schedule(f: Fleet, mac: string, roles: seq<Role>): Fleet {
    f.(hosts := map u | u in f.hosts :: if Owns(f.hosts[u], mac) then AddRoles(f.hosts[u], roles) else f.hosts[u])
  }

  // ---------- what the views report ----------

  ghost predicate HasBoot(h: Host) {
    exists n :: n in h.nics && n.asBoot
  }

  ghost function BootNic(h: Host): Nic
    requires HasBoot(h)
    ensures BootNic(h) in h.nics && BootNic(h).asBoot
  {
    var n :| n in h.nics && n.asBoot; n
  }

  ghost function Available(f: Fleet): set<string> {
    set u | u in f.hosts && HasBoot(f.hosts[u]) && f.hosts[u].roles == multiset{}
  }

  ghost predicate RunsControlPlane(h: Host) {
    forall r :: r in h.roles <==> r in CONTROL_PLANE_ROLES
  }

  /** Machines whose set of roles is the control plane's. */
  ghost function ControlPlanes(f: Fleet): set<string> {
    set u | u in f.hosts && RunsControlPlane(f.hosts[u])
  }

  /** Machines that hold the node role. */
  ghost function Nodes(f: Fleet): set<string> {
    set u | u in f.hosts && KubernetesNode in f.hosts[u].roles
  }

  ghost predicate AllHaveBoot(f: Fleet, us: set<string>) {
    forall u :: u in us && u in f.hosts ==> HasBoot(f.hosts[u])
  }

  // ---------- what every request keeps ----------

  /** A MAC belongs to one interface of one machine, and a machine boots from at most
      one interface. */
  ghost predicate Coherent(f: Fleet) {
    && (forall u, v, n, k :: u in f.hosts && v in f.hosts && n in f.hosts[u].nics && k in f.hosts[v].nics && n.mac == k.mac
                             ==> u == v && n == k)
    && (forall u, n, k :: u in f.hosts && n in f.hosts[u].nics && k in f.hosts[u].nics && n.asBoot && k.asBoot ==> n == k)
  }

  lemma NicsTold(p: Post, a: PostedNic, b: PostedNic)
    requires p.Post? && MacsDistinct(p.nics)
    requires a in p.nics && b in p.nics && a.mac != "" && a.mac == b.mac
    ensures a == b
  {
    var i :| 0 <= i < |p.nics| && p.nics[i] == a;
    var j :| 0 <= j < |p.nics| && p.nics[j] == b;
    assert i == j;
  }

  lemma ReportedMacsAreFree(f: Fleet, p: Post, v: string, k: Nic, n: Nic)
    requires Acceptable(f, p) && v in f.hosts && v != p.uuid && k in f.hosts[v].nics && n in NicsOf(p.nics, p.bootMac)
    ensures n.mac != k.mac
  {
    assert n.mac in MacsOf(p.nics) && !OwnedElsewhere(f, p.uuid, n.mac);
    assert !Owns(f.hosts[v], n.mac);
  }

  lemma ReportedMacsTellApart(p: Post, n: Nic, k: Nic)
    requires p.Post? && MacsDistinct(p.nics) && n in NicsOf(p.nics, p.bootMac) && k in NicsOf(p.nics, p.bootMac)
    ensures n.mac == k.mac ==> n == k
  {
    var a :| a in p.nics && a.mac != "" && n == NicOf(a, p.bootMac);
    var b :| b in p.nics && b.mac != "" && k == NicOf(b, p.bootMac);
    if n.mac == k.mac { NicsTold(p, a, b); }
  }

  lemma DiscoverKeepsCoherent(f: Fleet, p: Post)
    requires Coherent(f)
    ensures Coherent(Discover(f, p))
  {
    if Acceptable(f, p) {
      var g := Discover(f, p);
      forall u, v, n, k | u in g.hosts && v in g.hosts && n in g.hosts[u].nics && k in g.hosts[v].nics
        ensures n.mac == k.mac ==> u == v && n == k
        ensures u == v && n.asBoot && k.asBoot ==> n == k
      {
        if u == p.uuid && v != p.uuid {
          ReportedMacsAreFree(f, p, v, k, n);
        } else if v == p.uuid && u != p.uuid {
          ReportedMacsAreFree(f, p, u, n, k);
        } else if u == p.uuid {
          ReportedMacsTellApart(p, n, k);
        }
      }
    }
  }

  lemma ScheduleKeepsCoherent(f: Fleet, mac: string, roles: seq<Role>)
    requires Coherent(f)
    ensures Coherent(Schedule(f, mac, roles))
  {
    var g := Schedule(f, mac, roles);
    assert forall u :: u in g.hosts ==> g.hosts[u].nics == f.hosts[u].nics;
  }

  lemma OwnerIsUnique(f: Fleet, u: string, v: string, mac: string)
    requires Coherent(f) && u in f.hosts && v in f.hosts && Owns(f.hosts[u], mac)
    ensures Owns(f.hosts[v], mac) ==> u == v
  {}

  /** A schedule request changes the one machine that owns the MAC. */
  lemma ScheduleHitsOwner(f: Fleet, u: string, mac: string, roles: seq<Role>)
    requires Coherent(f) && u in f.hosts && Owns(f.hosts[u], mac)
    ensures Schedule(f, mac, roles) == f.(hosts := f.hosts[u := AddRoles(f.hosts[u], roles)])
  {
    forall v | v in f.hosts ensures Owns(f.hosts[v], mac) <==> v == u {
      OwnerIsUnique(f, u, v, mac);
    }
    hide Coherent, Owns, AddRoles;
    assert Schedule(f, mac, roles).hosts == f.hosts[u := AddRoles(f.hosts[u], roles)];
  }

  lemma ScheduleUnknown(f: Fleet, mac: string, roles: seq<Role>)
    requires forall u :: u in f.hosts ==> !Owns(f.hosts[u], mac)
    ensures Schedule(f, mac, roles) == f
  {
    hide Owns, AddRoles;
    assert Schedule(f, mac, roles).hosts == f.hosts;
  }

  // ---------- the MAC a machine boots from ----------

  /** The report changes the MAC that a known machine boots from. */
  ghost predicate BootMoves(f: Fleet, p: Post) {
    && Acceptable(f, p) && p.uuid in f.hosts
    && !(p.bootMac in MacsOf(p.nics) && HasBoot(f.hosts[p.uuid]) && p.bootMac == BootNic(f.hosts[p.uuid]).mac)
  }

  lemma BootAfter(f: Fleet, p: Post)
    requires Coherent(f) && Acceptable(f, p)
    ensures var h := Discover(f, p).hosts[p.uuid];
      (HasBoot(h) <==> p.bootMac in MacsOf(p.nics)) && (HasBoot(h) ==> BootNic(h).mac == p.bootMac)
  {
    var h := Discover(f, p).hosts[p.uuid];
    assert forall n :: n in h.nics ==> exists q :: q in p.nics && q.mac != "" && n == NicOf(q, p.bootMac);
    if p.bootMac in MacsOf(p.nics) {
      var q :| q in p.nics && q.mac != "" && q.mac == p.bootMac;
      assert NicOf(q, p.bootMac) in h.nics;
    }
    hide Acceptable, LinksOf, ChassisAfter, Coherent;
  }

  // ---------- what is stored, column by column ----------

  /** The row of an interface that was reported as q. */
  ghost predicate StoredAs(n: Nic, q: PostedNic, bootMac: string) {
    && q.mac != "" && n.mac == q.mac && n.name == q.name && n.netmask == q.netmask && n.ipv4 == q.ipv4
    && n.cidrv4 == q.cidrv4 && n.gateway == q.gateway && n.fqdn == q.fqdn && (n.asBoot <==> q.mac == bootMac)
  }

  ghost predicate ReportedRow(n: Nic, p: Post)
    requires p.Post?
  {
    exists q :: q in p.nics && StoredAs(n, q, p.bootMac)
  }

  /** The MAC of the last listed interface that has a MAC and that name. */
  ghost predicate NamedLast(nics: seq<PostedNic>, name: string, mac: string) {
    exists j :: 0 <= j < |nics| && nics[j].name == name && nics[j].mac == mac && mac != "" && forall k :: j < k < |nics| && nics[k].mac != "" ==> nics[k].name != name
  }

  ghost predicate PortOf(l: Link, q: PostedLink, nics: seq<PostedNic>) {
    l.port == q.portId && l.chassis == q.chassisName && NamedLast(nics, q.nicName, l.mac)
  }

  ghost predicate PortsOf(ls: seq<Link>, links: seq<PostedLink>, nics: seq<PostedNic>) {
    |ls| == |links| && forall i :: 0 <= i < |ls| ==> PortOf(ls[i], links[i], nics)
  }

  /** The machine has the interfaces, disks and chassis ports of the report and no others. */
  ghost predicate HasFactsOf(h: Host, p: Post)
    requires p.Post?
  {
    && (forall n :: n in h.nics <==> ReportedRow(n, p))
    && h.disks == (if p.disks.Some? then multiset(p.disks.value) else multiset{})
    && (exists ls :: PortsOf(ls, p.links, p.nics) && multiset(ls) == h.links)
  }

  lemma RowsStored(p: Post, n: Nic)
    requires p.Post?
    ensures n in NicsOf(p.nics, p.bootMac) <==> ReportedRow(n, p)
  {
    if n in NicsOf(p.nics, p.bootMac) {
      var q :| q in p.nics && q.mac != "" && n == NicOf(q, p.bootMac);
      assert StoredAs(n, q, p.bootMac);
    }
    if ReportedRow(n, p) {
      var q :| q in p.nics && StoredAs(n, q, p.bootMac);
      assert n == NicOf(q, p.bootMac);
    }
  }

  lemma {:induction false} NamedIsLast(nics: seq<PostedNic>, name: string)
    requires MacNamed(nics, name).Some?
    ensures NamedLast(nics, name, MacNamed(nics, name).value)
  {
    var n := |nics| - 1;
    var last := nics[n];
    if !(last.mac != "" && last.name == name) {
      NamedIsLast(nics[..n], name);
      var mac := MacNamed(nics[..n], name).value;
      var j :| 0 <= j < n && nics[..n][j].name == name && nics[..n][j].mac == mac && mac != ""
               && forall k :: j < k < n && nics[..n][k].mac != "" ==> nics[..n][k].name != name;
      assert nics[j] == nics[..n][j];
      assert forall k :: j < k < n ==> nics[k] == nics[..n][k];
    }
  }

  lemma {:induction false} PortsStored(known: map<string, string>, nics: seq<PostedNic>, links: seq<PostedLink>) returns (ls: seq<Link>)
    requires LinksAcceptable(known, nics, links)
    ensures PortsOf(ls, links, nics) && multiset(ls) == LinksOf(nics, links)
  {
    if links == [] {
      ls := [];
    } else {
      var n := |links| - 1;
      var last := links[n];
      var before := PortsStored(known, nics, links[..n]);
      NamedIsLast(nics, last.nicName);
      var l := Link(last.portId, last.chassisName, MacNamed(nics, last.nicName).value);
      ls := before + [l];
      hide NamedLast, LinksAcceptable, MacNamed;
      forall i | 0 <= i < |ls| ensures PortOf(ls[i], links[i], nics) {
        if i < n { assert PortOf(before[i], links[..n][i], nics); }
      }
    }
  }

  /** After an accepted report its machine has exactly the reported facts. */
  lemma ReportIsStored(f: Fleet, p: Post)
    requires Acceptable(f, p)
    ensures p.Post? && p.uuid in Discover(f, p).hosts && HasFactsOf(Discover(f, p).hosts[p.uuid], p)
  {
    var h := Discover(f, p).hosts[p.uuid];
    forall n ensures n in h.nics <==> ReportedRow(n, p) {
      RowsStored(p, n);
    }
    var ls := PortsStored(f.chassis, p.nics, p.links);
    hide NicsOf, ReportedRow, PortsOf, LinksOf, LinksAcceptable, ChassisAfter;
  }

  /** A chassis known by its name stays, a new one gets the identifier first reported. */
  lemma {:induction false} ChassisFirst(known: map<string, string>, links: seq<PostedLink>, name: string)
    ensures name in known ==> name in ChassisAfter(known, links) && ChassisAfter(known, links)[name] == known[name]
    ensures name !in known && name in ChassisAfter(known, links) ==>
              exists i :: 0 <= i < |links| && links[i].chassisName == name && ChassisAfter(known, links)[name] == links[i].chassisId
                          && forall j :: 0 <= j < i ==> links[j].chassisName != name
    ensures name !in known && name !in ChassisAfter(known, links) ==> forall i :: 0 <= i < |links| ==> links[i].chassisName != name
  {
    if links != [] {
      var n := |links| - 1;
      ChassisFirst(known, links[..n], name);
      assert forall j :: 0 <= j < n ==> links[..n][j] == links[j];
    }
  }

  /** The roles a request adds: each posted occurrence of a role not held. */
  lemma {:induction false} NewRolesCount(roles: seq<Role>, held: multiset<Role>, r: Role)
    ensures NewRoles(roles, held)[r] == if r in held then 0 else multiset(roles)[r]
  {
    if roles != [] {
      var n := |roles| - 1;
      NewRolesCount(roles[..n], held, r);
      assert roles == roles[..n] + [roles[n]];
    }
  }

  /** What a schedule request does to each machine: its roles grow by the posted ones it does
      not hold if it owns the MAC, and nothing else changes. */
  lemma ScheduleStores(f: Fleet, mac: string, roles: seq<Role>, u: string, r: Role)
    requires u in f.hosts
    ensures var g := Schedule(f, mac, roles);
      && g.hosts.Keys == f.hosts.Keys && g.chassis == f.chassis
      && g.hosts[u].nics == f.hosts[u].nics && g.hosts[u].disks == f.hosts[u].disks && g.hosts[u].links == f.hosts[u].links
      && g.hosts[u].roles[r] == f.hosts[u].roles[r]
         + (if (exists n :: n in f.hosts[u].nics && n.mac == mac) && r !in f.hosts[u].roles then multiset(roles)[r] else 0)
  {
    NewRolesCount(roles, f.hosts[u].roles, r);
    hide NewRoles;
  }

  // ---------- any sequence of discovery reports ----------

  ghost function DiscoverAll(f: Fleet, posts: seq<Post>): Fleet {
    if posts == [] then f else Discover(DiscoverAll(f, posts[..|posts| - 1]), posts[|posts| - 1])
  }

  /** The i-th report is an accepted one about machine u. */
  ghost predicate TakenAbout(f: Fleet, posts: seq<Post>, u: string, i: nat)
    requires i < |posts|
  {
    Acceptable(DiscoverAll(f, posts[..i]), posts[i]) && posts[i].uuid == u
  }

  ghost predicate NeverAbout(f: Fleet, posts: seq<Post>, u: string) {
    forall j :: 0 <= j < |posts| ==> !TakenAbout(f, posts, u, j)
  }

  ghost predicate LastAbout(f: Fleet, posts: seq<Post>, u: string, i: nat) {
    i < |posts| && TakenAbout(f, posts, u, i) && forall j :: i < j < |posts| ==> !TakenAbout(f, posts, u, j)
  }

  ghost function Stated(p: Post, roles: multiset<Role>): Host
    requires p.Post?
  {
    Host(NicsOf(p.nics, p.bootMac), multiset(DisksOf(p)), LinksOf(p.nics, p.links), roles)
  }

  lemma DiscoverEffect(f: Fleet, p: Post, u: string)
    ensures RolesHeld(Discover(f, p), u) == RolesHeld(f, u)
    ensures Acceptable(f, p) && p.uuid == u ==>
              u in Discover(f, p).hosts && Discover(f, p).hosts[u] == Stated(p, RolesHeld(f, u))
    ensures !(Acceptable(f, p) && p.uuid == u) ==> SameHost(f, Discover(f, p), u)
  {}

  ghost predicate SameHost(f: Fleet, g: Fleet, u: string) {
    (u in f.hosts <==> u in g.hosts) && (u in f.hosts ==> f.hosts[u] == g.hosts[u])
  }

  /** Whatever reports arrive, a machine's facts are those of its last accepted report. */
  lemma {:induction false} LastReportWins(f: Fleet, posts: seq<Post>, u: string, i: nat)
    requires LastAbout(f, posts, u, i)
    ensures u in DiscoverAll(f, posts).hosts && posts[i].Post?
    ensures DiscoverAll(f, posts).hosts[u] == Stated(posts[i], RolesHeld(f, u))
    ensures HasFactsOf(DiscoverAll(f, posts).hosts[u], posts[i]) && DiscoverAll(f, posts).hosts[u].roles == RolesHeld(f, u)
  {
    hide Discover, Acceptable, Stated, RolesHeld, Coherent, HasFactsOf;
    var n := |posts| - 1;
    var before := posts[..n];
    DiscoverEffect(DiscoverAll(f, before), posts[n], u);
    StatedRoles(posts[i], RolesHeld(f, u));
    if i == n {
      ReportIsStored(DiscoverAll(f, before), posts[n]);
      RolesNeverMove(f, before, u);
    } else {
      LastBefore(f, posts, u, i);
      LastReportWins(f, before, u, i);
    }
  }

  lemma StatedRoles(p: Post, roles: multiset<Role>)
    ensures p.Post? ==> Stated(p, roles).roles == roles
  {}

  lemma LastBefore(f: Fleet, posts: seq<Post>, u: string, i: nat)
    requires LastAbout(f, posts, u, i) && i < |posts| - 1
    ensures LastAbout(f, posts[..|posts| - 1], u, i) && !TakenAbout(f, posts, u, |posts| - 1)
  {
    hide Discover, Acceptable, DiscoverAll;
    var before := posts[..|posts| - 1];
    forall j | 0 <= j < |before| ensures TakenAbout(f, posts, u, j) <==> TakenAbout(f, before, u, j) {
      assert posts[..j] == before[..j];
    }
  }

  /** A machine no accepted report was about is as it was. */
  lemma {:induction false} UnreportedStays(f: Fleet, posts: seq<Post>, u: string)
    requires NeverAbout(f, posts, u)
    ensures SameHost(f, DiscoverAll(f, posts), u)
  {
    if posts != [] {
      var n := |posts| - 1;
      var before := posts[..n];
      forall j | 0 <= j < n ensures !TakenAbout(f, before, u, j) {
        assert posts[..j] == before[..j] && !TakenAbout(f, posts, u, j);
      }
      UnreportedStays(f, before, u);
      assert !TakenAbout(f, posts, u, n);
      DiscoverEffect(DiscoverAll(f, before), posts[n], u);
    }
  }

  /** Reports never give or take a role, and keep the fleet coherent. */
  lemma {:induction false} RolesNeverMove(f: Fleet, posts: seq<Post>, u: string)
    ensures RolesHeld(DiscoverAll(f, posts), u) == RolesHeld(f, u)
    ensures Coherent(f) ==> Coherent(DiscoverAll(f, posts))
  {
    if posts != [] {
      var n := |posts| - 1;
      var before := DiscoverAll(f, posts[..n]);
      RolesNeverMove(f, posts[..n], u);
      DiscoverEffect(before, posts[n], u);
      if Coherent(f) { DiscoverKeepsCoherent(before, posts[n]); }
    }
  }

  // ---------- columns stay well formed ----------

  ghost predicate WellAddressed(f: Fleet) {
    forall u, n :: u in f.hosts && n in f.hosts[u].nics ==> IsMac(n.mac) && IsIpv4(n.ipv4)
  }

  lemma DiscoverKeepsAddresses(f: Fleet, p: Post)
    requires WellAddressed(f)
    ensures WellAddressed(Discover(f, p))
  {
    hide IsMac, IsIpv4, LinksAcceptable, LinksOf, ChassisAfter;
  }

  lemma ScheduleKeepsAddresses(f: Fleet, mac: string, roles: seq<Role>)
    requires WellAddressed(f)
    ensures WellAddressed(Schedule(f, mac, roles))
  {
    hide IsMac, IsIpv4, Owns;
    var g := Schedule(f, mac, roles);
    assert forall u :: u in g.hosts ==> g.hosts[u].nics == f.hosts[u].nics;
  }

  /** Every machine is stored under a uuid. */
  ghost predicate WellKeyed(f: Fleet) {
    forall u :: u in f.hosts ==> IsUuid(u)
  }

  lemma DiscoverKeepsKeys(f: Fleet, p: Post)
    requires WellKeyed(f)
    ensures WellKeyed(Discover(f, p))
  {
    hide IsUuid, LinksAcceptable, LinksOf, ChassisAfter;
  }

  lemma DotAt(s: string, fields: nat) returns (i: nat)
    requires IsDotted(s, fields) && fields > 1
    ensures i < |s| && s[i] == '.' && IsOctet(s[..i]) && IsDotted(s[i + 1..], fields - 1)
  {
    i :| i < |s| && s[i] == '.' && IsOctet(s[..i]) && IsDotted(s[i + 1..], fields - 1);
  }

  /** A dotted address holds digits and dots only. */
  lemma {:induction false} DottedPlain(s: string, fields: nat)
    requires IsDotted(s, fields)
    ensures forall c :: c in s ==> c == '.' || '0' <= c <= '9'
  {
    if fields == 1 {
    } else {
      var i := DotAt(s, fields);
      hide *;
      DottedPlain(s[i + 1..], fields - 1);
      assert s == s[..i] + [s[i]] + s[i + 1..];
    }
  }
}
