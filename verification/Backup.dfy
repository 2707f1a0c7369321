/** `BackupExport` of `crud.py`: the playbook of discovery and schedule requests that
    rebuilds the scheduled machines on an empty database. */
module Backup {
  import opened Prelude
  import opened Machines
  import opened Database
  import opened Queries
  import opened Scheduling

  /** One discovery request and the schedule request that follows it. */
  datatype Entry = Entry(discovery: Post, mac: string, roles: seq<Role>)

  /** The two roles of a control plane in the order the export writes them. */
  const EXPORTED_CONTROL_PLANE: seq<Role> := [KubernetesControlPlane, EtcdMember]

  function RolesFor(role: Role): seq<Role> {
    if role == KubernetesControlPlane then EXPORTED_CONTROL_PLANE else NODE_ROLES
  }

  // ---------- what replaying does ----------

  ghost function ReplayOne(f: Fleet, e: Entry): Fleet {
    Schedule(Discover(f, e.discovery), e.mac, e.roles)
  }

  ghost function Replay(f: Fleet, playbook: seq<Entry>): Fleet {
    if playbook == [] then f else ReplayOne(Replay(f, playbook[..|playbook| - 1]), playbook[|playbook| - 1])
  }

  // ---------- what is rebuilt ----------

  /** What the export keeps of an interface: all but the CIDR notation, which it fills
      with the plain address, and the name, which is looked up again. */
  datatype Facts = Facts(mac: string, name: string, netmask: int, ipv4: string, gateway: string, asBoot: bool)

  function FactsOfNic(n: Nic): Facts {
    Facts(n.mac, n.name, n.netmask, n.ipv4, n.gateway, n.asBoot)
  }

  ghost function FactsOf(h: Host): set<Facts> {
    set n | n in h.nics :: FactsOfNic(n)
  }

  /** The roles that an export by control plane role and by node role brings back. */
  function RolesBack(roles: multiset<Role>): multiset<Role> {
    (if KubernetesControlPlane in roles then multiset{EtcdMember, KubernetesControlPlane} else multiset{})
    + (if KubernetesNode in roles then multiset{KubernetesNode} else multiset{})
  }

  /** They are the machine's roles exactly if it holds none twice and is an etcd member
      just when it is a control plane. */
  lemma RolesBackIff(roles: multiset<Role>)
    ensures RolesBack(roles) == roles <==>
            (forall r :: roles[r] <= 1) && (EtcdMember in roles <==> KubernetesControlPlane in roles)
  {
    if (forall r :: roles[r] <= 1) && (EtcdMember in roles <==> KubernetesControlPlane in roles) {
      forall r ensures RolesBack(roles)[r] == roles[r] {
        match r case EtcdMember => case KubernetesControlPlane => case KubernetesNode =>
      }
    }
    if RolesBack(roles) == roles {
      forall r ensures roles[r] <= 1 {
        match r case EtcdMember => case KubernetesControlPlane => case KubernetesNode =>
      }
    }
  }

  ghost predicate Rebuilt(h: Host, g: Host, roles: multiset<Role>) {
    FactsOf(g) == FactsOf(h) && g.disks == h.disks && g.links == multiset{} && g.roles == roles
  }

  // ---------- one exported machine ----------

  /** p reports the interfaces and disks of h and its boot MAC, and no links. */
  ghost predicate Reports(u: string, h: Host, p: Post) {
    && p.Post? && p.uuid == u && p.links == []
    && HasBoot(h) && p.bootMac == BootNic(h).mac
    && multiset(DisksOf(p)) == h.disks
    && MacsDistinct(p.nics)
    && (forall q :: q in p.nics ==> IsOf(h, q))
    && (forall n :: n in h.nics ==> IsIn(p.nics, n))
  }

  ghost predicate IsOf(h: Host, q: PostedNic) {
    exists n :: n in h.nics && SameNic(n, q)
  }

  ghost predicate IsIn(nics: seq<PostedNic>, n: Nic) {
    exists q :: q in nics && SameNic(n, q)
  }

  ghost predicate SameNic(n: Nic, q: PostedNic) {
    q.mac == n.mac && q.name == n.name && q.netmask == n.netmask && q.ipv4 == n.ipv4 && q.cidrv4 == n.ipv4 && q.gateway == n.gateway
  }

  ghost predicate Exports(f: Fleet, u: string, role: Role, e: Entry) {
    && u in f.hosts && role in f.hosts[u].roles
    && Reports(u, f.hosts[u], e.discovery) && e.mac == e.discovery.bootMac && e.roles == RolesFor(role)
  }

  ghost predicate ExportsAll(f: Fleet, us: seq<string>, role: Role, es: seq<Entry>) {
    |es| == |us| && forall i :: 0 <= i < |us| ==> Exports(f, us[i], role, es[i])
  }

  /** The whole playbook: first the machines with the control plane role, then those with
      the node role, each in some order. */
  ghost predicate IsPlaybook(f: Fleet, us: seq<string>, vs: seq<string>, playbook: seq<Entry>) {
    && Enumerates(us, RoleHosts(f, [KubernetesControlPlane])) && Enumerates(vs, RoleHosts(f, [KubernetesNode]))
    && |playbook| == |us| + |vs|
    && ExportsAll(f, us, KubernetesControlPlane, playbook[..|us|])
    && ExportsAll(f, vs, KubernetesNode, playbook[|us|..])
  }

  /** A fleet as the database keeps it. */
  ghost predicate Stored(f: Fleet) {
    Coherent(f) && WellAddressed(f) && WellKeyed(f)
  }

  lemma OriginalOf(u: string, h: Host, p: Post, q: PostedNic) returns (n: Nic)
    requires Reports(u, h, p) && q in p.nics
    ensures n in h.nics && SameNic(n, q)
  {
    assert IsOf(h, q);
    n :| n in h.nics && SameNic(n, q);
  }

  lemma ReportOf(u: string, h: Host, p: Post, n: Nic) returns (q: PostedNic)
    requires Reports(u, h, p) && n in h.nics
    ensures q in p.nics && SameNic(n, q)
  {
    assert IsIn(p.nics, n);
    q :| q in p.nics && SameNic(n, q);
  }

  lemma StoredNic(f: Fleet, u: string, n: Nic)
    requires Stored(f) && u in f.hosts && n in f.hosts[u].nics
    ensures IsMac(n.mac) && n.mac != "" && IsIpv4(n.ipv4) && Owns(f.hosts[u], n.mac)
  {
    hide Coherent, IsIpv4;
  }

  lemma ReportedNic(f: Fleet, u: string, p: Post, q: PostedNic)
    requires Stored(f) && u in f.hosts && Reports(u, f.hosts[u], p) && q in p.nics
    ensures q.mac != "" && WellFormedNic(q) && Owns(f.hosts[u], q.mac)
    ensures FactsOfNic(NicOf(q, p.bootMac)) in FactsOf(f.hosts[u])
  {
    var n := OriginalOf(u, f.hosts[u], p, q);
    BootMacIs(u, f.hosts[u], p);
    hide Stored, Reports, Owns, IsMac, IsIpv4;
    StoredNic(f, u, n);
    StoredCoherent(f);
    BootByMac(f, u, n);
    assert FactsOfNic(NicOf(q, p.bootMac)) == FactsOfNic(n);
  }

  lemma BootMacIs(u: string, h: Host, p: Post)
    requires Reports(u, h, p)
    ensures p.Post? && HasBoot(h) && p.bootMac == BootNic(h).mac
  {}

  lemma StoredCoherent(f: Fleet)
    requires Stored(f)
    ensures Coherent(f)
  {}

  lemma OriginalNic(f: Fleet, u: string, p: Post, n: Nic)
    requires Stored(f) && u in f.hosts && Reports(u, f.hosts[u], p) && n in f.hosts[u].nics
    ensures n.mac in MacsOf(p.nics)
    ensures exists m :: m in NicsOf(p.nics, p.bootMac) && FactsOfNic(m) == FactsOfNic(n)
  {
    hide Stored, Reports, Owns, IsMac, IsIpv4;
    var q := ReportOf(u, f.hosts[u], p, n);
    BootMacIs(u, f.hosts[u], p);
    StoredNic(f, u, n);
    StoredCoherent(f);
    BootByMac(f, u, n);
    assert NicOf(q, p.bootMac) in NicsOf(p.nics, p.bootMac);
    assert FactsOfNic(NicOf(q, p.bootMac)) == FactsOfNic(n);
  }

  lemma RebuiltFacts(f: Fleet, u: string, p: Post)
    requires Stored(f) && u in f.hosts && Reports(u, f.hosts[u], p)
    ensures (set n | n in NicsOf(p.nics, p.bootMac) :: FactsOfNic(n)) == FactsOf(f.hosts[u])
  {
    hide Stored, Reports, FactsOfNic, Coherent;
    BootMacIs(u, f.hosts[u], p);
    forall x | x in FactsOf(f.hosts[u]) ensures exists m :: m in NicsOf(p.nics, p.bootMac) && FactsOfNic(m) == x {
      var n :| n in f.hosts[u].nics && FactsOfNic(n) == x;
      OriginalNic(f, u, p, n);
    }
    forall m | m in NicsOf(p.nics, p.bootMac) ensures FactsOfNic(m) in FactsOf(f.hosts[u]) {
      var q :| q in p.nics && q.mac != "" && NicOf(q, p.bootMac) == m;
      ReportedNic(f, u, p, q);
    }
  }

  /** An interface boots the machine exactly if its MAC is the boot MAC. */
  lemma BootByMac(f: Fleet, u: string, n: Nic)
    requires Coherent(f) && u in f.hosts && HasBoot(f.hosts[u]) && n in f.hosts[u].nics
    ensures n.asBoot <==> n.mac == BootNic(f.hosts[u]).mac
  {
    var b := BootNic(f.hosts[u]);
  }

  // ---------- one entry ----------

  /** Every machine in g is a machine of f with its facts. */
  ghost predicate PartOf(f: Fleet, g: Fleet) {
    forall u :: u in g.hosts ==> u in f.hosts && FactsOf(g.hosts[u]) == FactsOf(f.hosts[u])
  }

  lemma SameMacs(h: Host, g: Host, mac: string)
    requires FactsOf(h) == FactsOf(g) && Owns(h, mac)
    ensures Owns(g, mac)
  {
    var n :| n in h.nics && n.mac == mac;
    assert FactsOfNic(n) in FactsOf(h) && FactsOfNic(n) in FactsOf(g);
    var k :| k in g.nics && FactsOfNic(k) == FactsOfNic(n);
    assert k.mac == mac;
  }

  /** On a part of the fleet the report of another of its machines is taken. */
  lemma ReportTaken(f: Fleet, g: Fleet, u: string, p: Post)
    requires Stored(f) && PartOf(f, g) && u in f.hosts && Reports(u, f.hosts[u], p)
    ensures Acceptable(g, p)
  {
    hide Owns, WellFormedNic, Coherent, FactsOf, Reports, WellAddressed, MacsDistinct;
    StoredCoherent(f);
    ReportSays(u, f.hosts[u], p);
    forall q | q in p.nics ensures q.mac != "" && WellFormedNic(q) {
      ReportedNic(f, u, p, q);
    }
    forall mac, v | mac in MacsOf(p.nics) && v in g.hosts && v != u ensures !Owns(g.hosts[v], mac) {
      var q :| q in p.nics && q.mac == mac;
      ReportedNic(f, u, p, q);
      if Owns(g.hosts[v], mac) {
        SameMacs(g.hosts[v], f.hosts[v], mac);
        OwnerIsUnique(f, u, v, mac);
      }
    }
  }

  lemma ReportSays(u: string, h: Host, p: Post)
    requires Reports(u, h, p)
    ensures p.Post? && p.uuid == u && p.links == [] && MacsDistinct(p.nics) && multiset(DisksOf(p)) == h.disks
  {}

  /** Replaying one entry: the machine has the reported facts and, on top of the roles it
      had, the posted ones; no other machine changes. */
  ghost predicate Replayed(g: Fleet, p: Post, roles: seq<Role>, k: Fleet)
    requires p.Post?
  {
    k == Fleet(g.hosts[p.uuid := AddRoles(Stated(p, RolesHeld(g, p.uuid)), roles)], g.chassis)
  }

  lemma EntryReplayed(f: Fleet, g: Fleet, u: string, role: Role, e: Entry)
    requires Stored(f) && Coherent(g) && PartOf(f, g) && Exports(f, u, role, e)
    ensures e.discovery.Post? && Replayed(g, e.discovery, e.roles, ReplayOne(g, e)) && Coherent(ReplayOne(g, e))
  {
    hide Stored, Coherent, Acceptable, Reports, Discover, Schedule, NicsOf, PartOf, AddRoles;
    var p, d := e.discovery, Discover(g, e.discovery);
    ReportSays(u, f.hosts[u], p);
    ReportTaken(f, g, u, p);
    DiscoverKeepsCoherent(g, p);
    ScheduleKeepsCoherent(d, e.mac, e.roles);
    BootReported(f, u, p);
    DiscoverTakes(g, p);
    assert Owns(d.hosts[u], e.mac);
    ScheduleHitsOwner(d, u, e.mac, e.roles);
  }

  lemma DiscoverTakes(g: Fleet, p: Post)
    requires Acceptable(g, p) && p.links == []
    ensures Discover(g, p) == Fleet(g.hosts[p.uuid := Stated(p, RolesHeld(g, p.uuid))], g.chassis)
  {}

  lemma BootReported(f: Fleet, u: string, p: Post)
    requires Stored(f) && u in f.hosts && Reports(u, f.hosts[u], p)
    ensures exists n :: n in NicsOf(p.nics, p.bootMac) && n.mac == p.bootMac
  {
    hide Stored, Reports, Coherent;
    BootMacIs(u, f.hosts[u], p);
    var b := BootNic(f.hosts[u]);
    OriginalNic(f, u, p, b);
    var m :| m in NicsOf(p.nics, p.bootMac) && FactsOfNic(m) == FactsOfNic(b);
    assert m.mac == p.bootMac;
  }

  lemma StatedIsRebuilt(f: Fleet, u: string, p: Post, held: multiset<Role>, roles: seq<Role>)
    requires Stored(f) && u in f.hosts && Reports(u, f.hosts[u], p)
    ensures p.Post? && Rebuilt(f.hosts[u], AddRoles(Stated(p, held), roles), held + NewRoles(roles, held))
  {
    hide Stored, Reports, Coherent, NicsOf, NewRoles, FactsOfNic;
    ReportSays(u, f.hosts[u], p);
    RebuiltFacts(f, u, p);
    assert LinksOf(p.nics, p.links) == multiset{};
  }

  // ---------- one role's part of the playbook ----------

  /** What the entries of one role leave, starting from g. */
  ghost predicate PartReplayed(g: Fleet, k: Fleet, us: seq<string>, es: seq<Entry>)
    requires |es| == |us| && forall i :: 0 <= i < |es| ==> es[i].discovery.Post?
  {
    && k.chassis == g.chassis && k.hosts.Keys == g.hosts.Keys + Elements(us)
    && (forall v :: v in g.hosts && v !in us ==> k.hosts[v] == g.hosts[v])
    && (forall i :: 0 <= i < |us| ==> Renewed(g, k, us[i], es[i]))
  }

  /** In k the machine is as its entry states it, with the posted roles on top of those in g. */
  ghost predicate Renewed(g: Fleet, k: Fleet, u: string, e: Entry)
    requires e.discovery.Post?
  {
    u in k.hosts && k.hosts[u] == AddRoles(Stated(e.discovery, RolesHeld(g, u)), e.roles)
  }

  lemma ExportsSays(f: Fleet, us: seq<string>, role: Role, es: seq<Entry>, i: nat)
    requires ExportsAll(f, us, role, es) && i < |us|
    ensures |es| == |us| && Exports(f, us[i], role, es[i]) && es[i].discovery.Post? && es[i].discovery.uuid == us[i] && us[i] in f.hosts
  {}

  lemma AllPosts(f: Fleet, us: seq<string>, role: Role, es: seq<Entry>)
    requires ExportsAll(f, us, role, es)
    ensures |es| == |us| && forall i :: 0 <= i < |es| ==> es[i].discovery.Post? && es[i].roles == RolesFor(role)
  {}

  lemma ExportsPrefix(f: Fleet, us: seq<string>, role: Role, es: seq<Entry>, n: nat)
    requires ExportsAll(f, us, role, es) && n <= |us|
    ensures |es| == |us| && ExportsAll(f, us[..n], role, es[..n])
  {}

  lemma DistinctPrefix(us: seq<string>, n: nat)
    requires Distinct(us) && n < |us|
    ensures Distinct(us[..n]) && us[n] !in us[..n]
  {}

  lemma RenewedLast(g: Fleet, k: Fleet, next: Fleet, e: Entry)
    requires e.discovery.Post? && Replayed(k, e.discovery, e.roles, next) && RolesHeld(k, e.discovery.uuid) == RolesHeld(g, e.discovery.uuid)
    ensures Renewed(g, next, e.discovery.uuid, e)
    ensures next.chassis == k.chassis && next.hosts.Keys == k.hosts.Keys + {e.discovery.uuid}
    ensures forall v :: v in k.hosts && v != e.discovery.uuid ==> next.hosts[v] == k.hosts[v]
  {}

  lemma RenewedStays(g: Fleet, k: Fleet, next: Fleet, u: string, e: Entry)
    requires e.discovery.Post? && Renewed(g, k, u, e) && u in next.hosts && next.hosts[u] == k.hosts[u]
    ensures Renewed(g, next, u, e)
  {}

  lemma StillHeld(g: Fleet, k: Fleet, us: seq<string>, es: seq<Entry>, u: string)
    requires |es| == |us| && forall i :: 0 <= i < |es| ==> es[i].discovery.Post?
    requires PartReplayed(g, k, us, es) && u !in us
    ensures RolesHeld(k, u) == RolesHeld(g, u)
  {
    hide Renewed;
  }

  lemma PartGrows(g: Fleet, k: Fleet, next: Fleet, us: seq<string>, es: seq<Entry>, n: nat)
    requires |es| == |us| == n + 1 && forall i :: 0 <= i < |es| ==> es[i].discovery.Post?
    requires PartReplayed(g, k, us[..n], es[..n]) && us[n] !in us[..n] && es[n].discovery.uuid == us[n]
    requires Replayed(k, es[n].discovery, es[n].roles, next)
    ensures PartReplayed(g, next, us, es)
  {
    hide AddRoles, Stated, Renewed, Replayed, RolesHeld;
    assert Elements(us) == Elements(us[..n]) + {us[n]};
    assert us == us[..n] + [us[n]];
    StillHeld(g, k, us[..n], es[..n], us[n]);
    RenewedLast(g, k, next, es[n]);
    forall i | 0 <= i < |us| ensures Renewed(g, next, us[i], es[i]) {
      if i < n {
        assert us[..n][i] == us[i] && es[..n][i] == es[i] && us[i] in us[..n];
        assert us[i] in Elements(us[..n]);
        RenewedStays(g, k, next, us[i], es[i]);
      }
    }
  }

  lemma PartKeeps(f: Fleet, k: Fleet, next: Fleet, u: string, p: Post, roles: seq<Role>)
    requires Stored(f) && PartOf(f, k) && u in f.hosts && Reports(u, f.hosts[u], p) && p.Post? && p.uuid == u && Replayed(k, p, roles, next)
    ensures PartOf(f, next)
  {
    StatedIsRebuilt(f, u, p, RolesHeld(k, u), roles);
    hide Stored, Reports, AddRoles, FactsOf, Stated;
  }

  lemma {:induction false} ReplayPart(f: Fleet, g: Fleet, us: seq<string>, role: Role, es: seq<Entry>)
    requires Stored(f) && Coherent(g) && PartOf(f, g) && Distinct(us) && ExportsAll(f, us, role, es)
    ensures |es| == |us| && forall i :: 0 <= i < |es| ==> es[i].discovery.Post?
    ensures PartReplayed(g, Replay(g, es), us, es) && Coherent(Replay(g, es)) && PartOf(f, Replay(g, es))
  {
    hide *;
    AllPosts(f, us, role, es);
    if es == [] {
      NothingReplayed(g);
    } else {
      var n := |es| - 1;
      ExportsPrefix(f, us, role, es, n);
      DistinctPrefix(us, n);
      ReplayPart(f, g, us[..n], role, es[..n]);
      var k := Replay(g, es[..n]);
      ExportsSays(f, us, role, es, n);
      EntryReplayed(f, k, us[n], role, es[n]);
      ReplayLast(g, es);
      PartKeeps(f, k, Replay(g, es), us[n], es[n].discovery, es[n].roles);
      PartGrows(g, k, Replay(g, es), us, es, n);
    }
  }

  lemma NothingReplayed(g: Fleet)
    ensures Replay(g, []) == g && PartReplayed(g, g, [], [])
  {}

  lemma ReplayLast(g: Fleet, es: seq<Entry>)
    requires es != []
    ensures Replay(g, es) == ReplayOne(Replay(g, es[..|es| - 1]), es[|es| - 1])
  {}

  lemma {:induction false} ReplayAppend(g: Fleet, a: seq<Entry>, b: seq<Entry>)
    ensures Replay(g, a + b) == Replay(Replay(g, a), b)
  {
    if b == [] {
      assert a + b == a;
    } else {
      var n := |b| - 1;
      ReplayAppend(g, a, b[..n]);
      assert (a + b)[..|a + b| - 1] == a + b[..n];
    }
  }

  // ---------- the round trip ----------

  function After(held: multiset<Role>, role: Role): multiset<Role> {
    held + NewRoles(RolesFor(role), held)
  }

  lemma AfterValues(held: multiset<Role>)
    ensures After(held, KubernetesControlPlane) ==
            held + ((if KubernetesControlPlane in held then multiset{} else multiset{KubernetesControlPlane})
                    + (if EtcdMember in held then multiset{} else multiset{EtcdMember}))
    ensures After(held, KubernetesNode) == held + (if KubernetesNode in held then multiset{} else multiset{KubernetesNode})
  {
    assert EXPORTED_CONTROL_PLANE[..1] == [KubernetesControlPlane] && [KubernetesControlPlane][..0] == [] && NODE_ROLES[..0] == [];
    assert NewRoles([], held) == multiset{};
    assert NewRoles([KubernetesControlPlane], held) == if KubernetesControlPlane in held then multiset{} else multiset{KubernetesControlPlane};
  }

  /** Roles of a machine after both parts, starting from what it held. */
  function RolesThrough(held: multiset<Role>, asControlPlane: bool, asNode: bool): multiset<Role> {
    var one := if asControlPlane then After(held, KubernetesControlPlane) else held;
    if asNode then After(one, KubernetesNode) else one
  }

  lemma SameCounts(a: multiset<Role>, b: multiset<Role>)
    requires a[EtcdMember] == b[EtcdMember] && a[KubernetesControlPlane] == b[KubernetesControlPlane] && a[KubernetesNode] == b[KubernetesNode]
    ensures a == b
  {
    forall r ensures a[r] == b[r] {
      match r case EtcdMember => case KubernetesControlPlane => case KubernetesNode =>
    }
  }

  lemma RolesThroughBack(roles: multiset<Role>)
    ensures RolesThrough(multiset{}, KubernetesControlPlane in roles, KubernetesNode in roles) == RolesBack(roles)
    ensures RolesThrough(RolesBack(roles), KubernetesControlPlane in roles, KubernetesNode in roles) == RolesBack(roles)
  {
    var back := RolesBack(roles);
    var one := if KubernetesControlPlane in roles then After(multiset{}, KubernetesControlPlane) else multiset{};
    var two := if KubernetesControlPlane in roles then After(back, KubernetesControlPlane) else back;
    AfterValues(multiset{});
    AfterValues(one);
    AfterValues(back);
    AfterValues(two);
    hide After;
    SameCounts(RolesThrough(multiset{}, KubernetesControlPlane in roles, KubernetesNode in roles), back);
    SameCounts(RolesThrough(back, KubernetesControlPlane in roles, KubernetesNode in roles), back);
  }

  ghost function Exported(f: Fleet): set<string> {
    RoleHosts(f, [KubernetesControlPlane]) + RoleHosts(f, [KubernetesNode])
  }

  /** The report that speaks last about the machine. */
  ghost function LastEntry(us: seq<string>, vs: seq<string>, playbook: seq<Entry>, u: string): Entry
    requires |playbook| == |us| + |vs| && (u in us || u in vs)
  {
    if u in vs then
      var j :| 0 <= j < |vs| && vs[j] == u; playbook[|us| + j]
    else
      var i :| 0 <= i < |us| && us[i] == u; playbook[i]
  }

  lemma Parts(f: Fleet, us: seq<string>, vs: seq<string>, playbook: seq<Entry>)
    requires IsPlaybook(f, us, vs, playbook)
    ensures |playbook| == |us| + |vs| && playbook == playbook[..|us|] + playbook[|us|..]
    ensures Distinct(us) && ExportsAll(f, us, KubernetesControlPlane, playbook[..|us|])
    ensures Distinct(vs) && ExportsAll(f, vs, KubernetesNode, playbook[|us|..])
    ensures forall u :: u in us <==> u in f.hosts && KubernetesControlPlane in f.hosts[u].roles
    ensures forall u :: u in vs <==> u in f.hosts && KubernetesNode in f.hosts[u].roles
  {}

  /** What a machine is after the playbook was replayed on g. */
  ghost predicate Settled(g: Fleet, u: string, e: Entry, roles: multiset<Role>)
    requires e.discovery.Post?
  {
    u in g.hosts && g.hosts[u] == Stated(e.discovery, roles)
  }

  lemma RenewedIsSettled(g: Fleet, k: Fleet, u: string, e: Entry, role: Role)
    requires e.discovery.Post? && Renewed(g, k, u, e) && e.roles == RolesFor(role)
    ensures Settled(k, u, e, After(RolesHeld(g, u), role)) && RolesHeld(k, u) == After(RolesHeld(g, u), role)
  {
    hide NicsOf, LinksOf, NewRoles;
  }

  /** Replaying the playbook on a part of the fleet: which machines there are and what each is. */
  lemma PlaybookReplayed(f: Fleet, g: Fleet, us: seq<string>, vs: seq<string>, playbook: seq<Entry>)
    requires Stored(f) && Coherent(g) && PartOf(f, g) && IsPlaybook(f, us, vs, playbook)
    ensures var k := Replay(g, playbook);
      && Coherent(k) && PartOf(f, k) && k.chassis == g.chassis && k.hosts.Keys == g.hosts.Keys + Exported(f)
      && (forall u :: u in g.hosts && u !in us && u !in vs ==> k.hosts[u] == g.hosts[u])
    ensures forall u :: u in us || u in vs ==>
              var e := LastEntry(us, vs, playbook, u);
              && (u in vs ==> Exports(f, u, KubernetesNode, e)) && (u !in vs ==> Exports(f, u, KubernetesControlPlane, e))
              && e.discovery.Post?
              && Settled(Replay(g, playbook), u, e, RolesThrough(RolesHeld(g, u), u in us, u in vs))
  {
    hide Stored, Coherent, PartOf, IsPlaybook, ExportsAll, Exports, PartReplayed, Renewed, Settled, After, Replay, RolesHeld;
    Parts(f, us, vs, playbook);
    var a, b := playbook[..|us|], playbook[|us|..];
    var mid := Replay(g, a);
    ReplayPart(f, g, us, KubernetesControlPlane, a);
    ReplayPart(f, mid, vs, KubernetesNode, b);
    ReplayAppend(g, a, b);
    var k := Replay(mid, b);
    PartSays(g, mid, us, a);
    PartSays(mid, k, vs, b);
    forall u | u in us || u in vs
      ensures var e := LastEntry(us, vs, playbook, u);
        && (u in vs ==> Exports(f, u, KubernetesNode, e)) && (u !in vs ==> Exports(f, u, KubernetesControlPlane, e))
        && e.discovery.Post? && Settled(k, u, e, RolesThrough(RolesHeld(g, u), u in us, u in vs))
    {
      OneMachine(f, g, mid, k, us, vs, playbook, u);
    }
  }

  lemma PartSays(g: Fleet, k: Fleet, us: seq<string>, es: seq<Entry>)
    requires |es| == |us| && forall i :: 0 <= i < |es| ==> es[i].discovery.Post?
    requires PartReplayed(g, k, us, es)
    ensures k.chassis == g.chassis && k.hosts.Keys == g.hosts.Keys + Elements(us)
    ensures forall v :: v in g.hosts && v !in us ==> k.hosts[v] == g.hosts[v]
    ensures forall v :: v !in us ==> RolesHeld(k, v) == RolesHeld(g, v)
    ensures forall i :: 0 <= i < |us| ==> Renewed(g, k, us[i], es[i])
  {
    hide Renewed;
  }

  lemma OneMachine(f: Fleet, g: Fleet, mid: Fleet, k: Fleet, us: seq<string>, vs: seq<string>, playbook: seq<Entry>, u: string)
    requires |playbook| == |us| + |vs| && forall i :: 0 <= i < |playbook| ==> playbook[i].discovery.Post?
    requires ExportsAll(f, us, KubernetesControlPlane, playbook[..|us|]) && ExportsAll(f, vs, KubernetesNode, playbook[|us|..])
    requires PartReplayed(g, mid, us, playbook[..|us|]) && PartReplayed(mid, k, vs, playbook[|us|..])
    requires u in us || u in vs
    ensures var e := LastEntry(us, vs, playbook, u);
      && (u in vs ==> Exports(f, u, KubernetesNode, e)) && (u !in vs ==> Exports(f, u, KubernetesControlPlane, e))
      && e.discovery.Post? && Settled(k, u, e, RolesThrough(RolesHeld(g, u), u in us, u in vs))
  {
    hide ExportsAll, Exports, PartReplayed, Renewed, Settled, After, RolesHeld;
    PartSays(g, mid, us, playbook[..|us|]);
    PartSays(mid, k, vs, playbook[|us|..]);
    AllPosts(f, us, KubernetesControlPlane, playbook[..|us|]);
    AllPosts(f, vs, KubernetesNode, playbook[|us|..]);
    if u in us {
      var i :| 0 <= i < |us| && us[i] == u;
      RenewedIsSettled(g, mid, u, playbook[..|us|][i], KubernetesControlPlane);
    }
    if u in vs {
      var j :| 0 <= j < |vs| && vs[j] == u && playbook[|us| + j] == LastEntry(us, vs, playbook, u);
      ExportsSays(f, vs, KubernetesNode, playbook[|us|..], j);
      RenewedIsSettled(mid, k, u, playbook[|us|..][j], KubernetesNode);
    } else {
      var i :| 0 <= i < |us| && us[i] == u && playbook[i] == LastEntry(us, vs, playbook, u);
      ExportsSays(f, us, KubernetesControlPlane, playbook[..|us|], i);
      RenewedIsSettled(g, mid, u, playbook[..|us|][i], KubernetesControlPlane);
      SettledStays(mid, k, u, playbook[i], After(RolesHeld(g, u), KubernetesControlPlane));
    }
  }

  lemma SettledStays(g: Fleet, k: Fleet, u: string, e: Entry, roles: multiset<Role>)
    requires e.discovery.Post? && Settled(g, u, e, roles) && u in g.hosts && (u in g.hosts ==> u in k.hosts && k.hosts[u] == g.hosts[u])
    ensures Settled(k, u, e, roles)
  {}

  lemma SettledIsRebuilt(f: Fleet, g: Fleet, u: string, e: Entry, role: Role, roles: multiset<Role>)
    requires Stored(f) && Exports(f, u, role, e) && e.discovery.Post? && Settled(g, u, e, roles)
    ensures u in f.hosts && u in g.hosts && Rebuilt(f.hosts[u], g.hosts[u], roles)
  {
    hide Stored, Reports, FactsOfNic;
    ReportSays(u, f.hosts[u], e.discovery);
    RebuiltFacts(f, u, e.discovery);
    assert LinksOf(e.discovery.nics, e.discovery.links) == multiset{};
  }

  lemma EmptyPart(f: Fleet)
    ensures Coherent(EMPTY_FLEET) && PartOf(f, EMPTY_FLEET) && EMPTY_FLEET.hosts == map[] && forall u :: RolesHeld(EMPTY_FLEET, u) == multiset{}
  {}

  /** Replayed on an empty database the playbook brings back exactly the exported machines,
      each with its interfaces, disks and boot flag, and with its roles as far as an export
      by role can tell them. */
  lemma RoundTrip(f: Fleet, us: seq<string>, vs: seq<string>, playbook: seq<Entry>)
    requires Stored(f) && IsPlaybook(f, us, vs, playbook)
    ensures var g := Replay(EMPTY_FLEET, playbook);
      && g.hosts.Keys == Exported(f)
      && (forall u :: u in Exported(f) ==> u in f.hosts && Rebuilt(f.hosts[u], g.hosts[u], RolesBack(f.hosts[u].roles)))
  {
    hide Stored, Coherent, PartOf, IsPlaybook, Exports, Settled, Replay, RolesHeld, Rebuilt, RolesBack, RolesThrough;
    EmptyPart(f);
    Parts(f, us, vs, playbook);
    PlaybookReplayed(f, EMPTY_FLEET, us, vs, playbook);
    var g := Replay(EMPTY_FLEET, playbook);
    forall u | u in Exported(f) ensures u in f.hosts && u in g.hosts && Rebuilt(f.hosts[u], g.hosts[u], RolesBack(f.hosts[u].roles)) {
      assert u in us || u in vs;
      var e := LastEntry(us, vs, playbook, u);
      RolesThroughBack(f.hosts[u].roles);
      SettledIsRebuilt(f, g, u, e, if u in vs then KubernetesNode else KubernetesControlPlane, RolesThrough(multiset{}, u in us, u in vs));
    }
  }

  /** All columns but the CIDR notation and the verified name. */
  ghost predicate SameColumns(n: Nic, m: Nic) {
    n.mac == m.mac && n.name == m.name && n.netmask == m.netmask && n.ipv4 == m.ipv4 && n.gateway == m.gateway && n.asBoot == m.asBoot
  }

  /** A machine rebuilt has the same interfaces, column by column. */
  lemma RebuiltColumns(h: Host, g: Host, roles: multiset<Role>)
    requires Rebuilt(h, g, roles)
    ensures forall n :: n in h.nics ==> exists m :: m in g.nics && SameColumns(n, m)
    ensures forall m :: m in g.nics ==> exists n :: n in h.nics && SameColumns(n, m)
  {
    forall n | n in h.nics ensures exists m :: m in g.nics && SameColumns(n, m) {
      assert FactsOfNic(n) in FactsOf(g);
      var m :| m in g.nics && FactsOfNic(m) == FactsOfNic(n);
      assert SameColumns(n, m);
    }
    forall m | m in g.nics ensures exists n :: n in h.nics && SameColumns(n, m) {
      assert FactsOfNic(m) in FactsOf(h);
      var n :| n in h.nics && FactsOfNic(n) == FactsOfNic(m);
      assert SameColumns(n, m);
    }
  }

  /** Replaying it again changes nothing. */
  lemma TwiceIsOnce(f: Fleet, us: seq<string>, vs: seq<string>, playbook: seq<Entry>)
    requires Stored(f) && IsPlaybook(f, us, vs, playbook)
    ensures var g := Replay(EMPTY_FLEET, playbook); Replay(g, playbook) == g
  {
    hide Stored, Coherent, PartOf, IsPlaybook, Exports, Settled, Replay, RolesBack, RolesThrough;
    EmptyPart(f);
    Parts(f, us, vs, playbook);
    PlaybookReplayed(f, EMPTY_FLEET, us, vs, playbook);
    var g := Replay(EMPTY_FLEET, playbook);
    PlaybookReplayed(f, g, us, vs, playbook);
    var k := Replay(g, playbook);
    forall u | u in g.hosts ensures u in k.hosts && k.hosts[u] == g.hosts[u] {
      assert u in Exported(f) && (u in us || u in vs);
      RolesThroughBack(f.hosts[u].roles);
      var e := LastEntry(us, vs, playbook, u);
      SettledRoles(g, u, e, RolesThrough(multiset{}, u in us, u in vs));
      SettledTwice(g, k, u, e, RolesThrough(multiset{}, u in us, u in vs));
    }
    assert k.hosts == g.hosts;
  }

  lemma SettledRoles(g: Fleet, u: string, e: Entry, roles: multiset<Role>)
    requires e.discovery.Post? && Settled(g, u, e, roles)
    ensures RolesHeld(g, u) == roles
  {}

  lemma SettledTwice(g: Fleet, k: Fleet, u: string, e: Entry, roles: multiset<Role>)
    requires e.discovery.Post? && Settled(g, u, e, roles) && Settled(k, u, e, roles)
    ensures u in g.hosts && u in k.hosts && k.hosts[u] == g.hosts[u]
  {}

  // ---------- the export ----------

  /** The interface rows of a machine, each once. */
  method InterfaceRows(t: Tables, id: nat) returns (l: seq<Nic>)
    requires MacsUnique(t.interfaces)
    ensures forall n :: n in l <==> n in HostAt(t, id).nics
    ensures forall i, j :: 0 <= i < j < |l| ==> l[i].mac != l[j].mac
  {
    var rows := At(t.interfaces, id);
    var todo := rows.Keys;
    l := [];
    while todo != {}
      invariant todo <= rows.Keys
      invariant forall n :: n in l <==> exists k :: k in rows && k !in todo && rows[k] == n
      invariant forall i, j :: 0 <= i < j < |l| ==> l[i].mac != l[j].mac
      decreases todo
    {
      var k :| k in todo;
      forall i | 0 <= i < |l| ensures l[i].mac != rows[k].mac {
        assert l[i] in l;
      }
      l := l + [rows[k]];
      todo := todo - {k};
    }
    hide MacsUnique;
  }

  lemma ValidColumns(t: Tables)
    requires Valid(t)
    ensures MacsUnique(t.interfaces) && OneBootEach(t.interfaces) && UuidsUnique(t.machines)
  {}

  lemma BootRow(t: Tables, id: nat, rows: seq<Nic>)
    requires Valid(t) && id in t.machines && forall n :: n in rows <==> n in HostAt(t, id).nics
    ensures HasBoot(HostAt(t, id)) <==> exists j :: 0 <= j < |rows| && rows[j].asBoot
    ensures forall j :: 0 <= j < |rows| && rows[j].asBoot ==> HasBoot(HostAt(t, id)) && BootNic(HostAt(t, id)) == rows[j]
  {
    hide HostAt, Valid, View;
    ValidColumns(t);
    ViewCoherent(t);
    ViewHost(t, id);
    var h := HostAt(t, id);
    if HasBoot(h) {
      var b := BootNic(h);
      assert b in rows;
    }
    forall j | 0 <= j < |rows| && rows[j].asBoot ensures HasBoot(h) && BootNic(h) == rows[j] {
      assert rows[j] in rows;
    }
  }

  lemma DisksRead(t: Tables, id: nat)
    ensures Bag(At(t.disks, id)) == HostAt(t, id).disks
  {}

  lemma RowsReported(h: Host, rows: seq<Nic>, nics: seq<PostedNic>)
    requires forall n :: n in rows <==> n in h.nics
    requires |nics| == |rows| && forall j :: 0 <= j < |rows| ==> SameNic(rows[j], nics[j])
    requires forall i, j :: 0 <= i < j < |rows| ==> rows[i].mac != rows[j].mac
    ensures MacsDistinct(nics) && (forall q :: q in nics ==> IsOf(h, q)) && (forall n :: n in h.nics ==> IsIn(nics, n))
  {
    forall i, j | 0 <= i < j < |nics| ensures nics[i].mac != nics[j].mac {
      assert SameNic(rows[i], nics[i]) && SameNic(rows[j], nics[j]);
    }
    hide SameNic;
    forall q | q in nics ensures IsOf(h, q) {
      var j :| 0 <= j < |nics| && nics[j] == q;
      assert rows[j] in rows;
    }
    forall n | n in h.nics ensures IsIn(nics, n) {
      var j :| 0 <= j < |rows| && rows[j] == n;
      assert nics[j] in nics;
    }
  }

  /** `_construct_discovery`; None where it raises because no interface is the boot one. */
  method ConstructDiscovery(t: Tables, id: nat) returns (r: Option<Post>)
    requires Valid(t) && id in t.machines
    ensures r.Some? <==> HasBoot(HostAt(t, id))
    ensures r.Some? ==> Reports(t.machines[id], HostAt(t, id), r.value)
  {
    hide Valid, HostAt, MacsUnique, OneBootEach, HasBoot, MacsDistinct, IsOf, IsIn;
    ghost var h := HostAt(t, id);
    ValidColumns(t);
    var rows := InterfaceRows(t, id);
    BootRow(t, id, rows);
    var nics: seq<PostedNic> := [];
    var macBoot: Option<string> := None;
    for i := 0 to |rows|
      invariant |nics| == i && forall j :: 0 <= j < i ==> SameNic(rows[j], nics[j])
      invariant macBoot.Some? <==> exists j :: 0 <= j < i && rows[j].asBoot
      invariant macBoot.Some? ==> HasBoot(h) && macBoot.value == BootNic(h).mac
    {
      var n := rows[i];
      if n.asBoot {
        macBoot := Some(n.mac);
      }
      nics := nics + [PostedNic(n.mac, n.name, n.netmask, n.ipv4, n.ipv4, n.gateway, n.fqdn)];
    }
    if macBoot.None? {
      return None;
    }
    var disks := RelatedRows(At(t.disks, id));
    DisksRead(t, id);
    RowsReported(h, rows, nics);
    r := Some(Post(t.machines[id], macBoot.value, nics, Some(disks), []));
  }

  class BackupExport {
    const db: Connection

    constructor (db: Connection)
      ensures this.db == db
    {
      this.db := db;
    }

    /** The entries of one role; None where a machine that holds it has no boot interface. */
    method ExportRole(role: Role) returns (r: Option<seq<Entry>>, ghost us: seq<string>)
      requires Valid(db.committed)
      ensures r.Some? <==> AllHaveBoot(View(db.committed), RoleHosts(View(db.committed), [role]))
      ensures r.Some? ==> Enumerates(us, RoleHosts(View(db.committed), [role])) && ExportsAll(View(db.committed), us, role, r.value)
    {
      hide *;
      var t := db.committed;
      ghost var f, s := View(t), RoleHosts(View(t), [role]);
      ValidUuids(t);
      var ids := QueryMachines(t);
      var es: seq<Entry> := [];
      us := [];
      VisitedNone(t, ids, s);
      ExportsNothing(f, role);
      for k := 0 to |ids|
        invariant Visited(t, ids, k, s, us) && ExportsAll(f, us, role, es)
      {
        VisitedNext(t, ids, k, s, us);
        var id := ids[k];
        RoleHostIs(t, id, [role]);
        HoldsIsHeld(t, id, role);
        if Holds(t, id, role) {
          var post := ConstructDiscovery(t, id);
          if post.None? {
            NoBootIn(f, s, t.machines[id]);
            return None, us;
          }
          ReportSays(t.machines[id], HostAt(t, id), post.value);
          var e := Entry(post.value, post.value.bootMac, RolesFor(role));
          ExportsOneMore(f, us, role, es, t.machines[id], e);
          es, us := es + [e], us + [t.machines[id]];
        }
      }
      RoleHostsKnown(t, [role]);
      VisitedAll(t, ids, s, us);
      ExportedBoot(f, s, us, role, es);
      r := Some(es);
    }

    /** `get_playbook`. */
    method GetPlaybook() returns (r: Option<seq<Entry>>, ghost us: seq<string>, ghost vs: seq<string>)
      requires Valid(db.committed)
      ensures r.Some? <==> AllHaveBoot(View(db.committed), Exported(View(db.committed)))
      ensures r.Some? ==> IsPlaybook(View(db.committed), us, vs, r.value)
    {
      hide *;
      ghost var f := View(db.committed);
      BootOfBoth(f);
      var cps, nodes;
      vs := [];
      cps, us := ExportRole(KubernetesControlPlane);
      if cps.None? { return None, us, vs; }
      nodes, vs := ExportRole(KubernetesNode);
      if nodes.None? { return None, us, vs; }
      TwoParts(f, us, vs, cps.value, nodes.value);
      r := Some(cps.value + nodes.value);
    }
  }

  lemma ExportsNothing(f: Fleet, role: Role)
    ensures ExportsAll(f, [], role, [])
  {}

  lemma ExportsOneMore(f: Fleet, us: seq<string>, role: Role, es: seq<Entry>, u: string, e: Entry)
    requires ExportsAll(f, us, role, es) && u in f.hosts && role in f.hosts[u].roles
    requires Reports(u, f.hosts[u], e.discovery) && e.discovery.Post? && e.mac == e.discovery.bootMac && e.roles == RolesFor(role)
    ensures ExportsAll(f, us + [u], role, es + [e])
  {
    hide Reports;
  }

  lemma ExportedBoot(f: Fleet, s: set<string>, us: seq<string>, role: Role, es: seq<Entry>)
    requires Enumerates(us, s) && ExportsAll(f, us, role, es)
    ensures AllHaveBoot(f, s)
  {
    forall u | u in s && u in f.hosts ensures HasBoot(f.hosts[u]) {
      assert u in us;
      var i :| 0 <= i < |us| && us[i] == u;
      assert Exports(f, us[i], role, es[i]);
    }
  }

  lemma BootOfBoth(f: Fleet)
    ensures AllHaveBoot(f, Exported(f)) <==>
            AllHaveBoot(f, RoleHosts(f, [KubernetesControlPlane])) && AllHaveBoot(f, RoleHosts(f, [KubernetesNode]))
  {}

  lemma TwoParts(f: Fleet, us: seq<string>, vs: seq<string>, cps: seq<Entry>, nodes: seq<Entry>)
    requires Enumerates(us, RoleHosts(f, [KubernetesControlPlane])) && Enumerates(vs, RoleHosts(f, [KubernetesNode]))
    requires ExportsAll(f, us, KubernetesControlPlane, cps) && ExportsAll(f, vs, KubernetesNode, nodes)
    ensures IsPlaybook(f, us, vs, cps + nodes)
  {
    assert |cps| == |us| && |nodes| == |vs|;
    assert (cps + nodes)[..|us|] == cps && (cps + nodes)[|us|..] == nodes;
    hide ExportsAll, Enumerates, RoleHosts;
  }
}
