/** `sync.py` and the writing part of `generator.py`: one group file per scheduled
    machine, numbered in MAC order, replaced only when its content changed. */
module Sync {
  import opened Prelude
  import opened Text
  import opened Machines
  import opened Database
  import opened Queries
  import opened Scheduling
  import opened PlanRun
  import opened PlanSafety
  import opened Plan
  import opened GroupFiles
  import opened ClusterView

  /** The parts of a group file that depend on the machine or on the cluster. */
  datatype Group = Group(selector: string, etcdName: string, nodeName: string, advertisePeer: string,
                         initialCluster: string, members: seq<string>, apiserverCount: Option<nat>)

  const NO_FILE: Group := Group("", "", "", "", "", [], None)

  function Dashed(ip: string): (r: string)
    ensures |r| == |ip| && forall i :: 0 <= i < |ip| ==> r[i] == if ip[i] == '.' then '-' else ip[i]
  {
    seq(|ip|, i requires 0 <= i < |ip| => if ip[i] == '.' then '-' else ip[i])
  }

  function AutomaticName(m: Marker, i: nat, ip: string): string {
    (if m == ControlPlaneGroup then "cp-" else "no-") + Decimal(i) + "-" + Dashed(ip)
  }

  /** `produce_matchbox_data`: file i of a series, from one machine and two answers about
      the etcd members. */
  function GroupFor(m: Marker, i: nat, n: Nic, cluster: seq<string>, members: seq<string>, count: nat, port: nat): Group {
    var automatic := AutomaticName(m, i, n.ipv4);
    var name := if n.fqdn.Some? && n.fqdn.value != "" then n.fqdn.value else automatic;
    Group(Lower(n.mac), n.ipv4, if name == automatic then n.ipv4 else name,
          "https://" + n.ipv4 + ":" + Decimal(port),
          InitialCluster(cluster, port), Sorted(members),
          if m == ControlPlaneGroup then Some(count) else None)
  }

  /** What the comparison with the file on disk sees: lists count as sets. */
  predicate SameData(a: Group, b: Group) {
    a.(members := []) == b.(members := []) && (set x | x in a.members) == (set x | x in b.members)
  }

  /** `^([0-9a-f]{2}[:]){5}([0-9a-f]{2})$` */
  predicate IsLowerMac(s: string) {
    IsMac(s) && forall c :: c in s ==> !('A' <= c <= 'F')
  }

  lemma LowerMac(s: string)
    requires IsMac(s)
    ensures IsLowerMac(Lower(s))
  {
    var r := Lower(s);
    forall i | 0 <= i < 17 ensures if i % 3 == 2 then r[i] == ':' else IsHex(r[i]) {
      assert if i % 3 == 2 then s[i] == ':' else IsHex(s[i]);
    }
  }

  ghost function Selected(groups: map<(Marker, nat), Group>): Files {
    map k | k in groups :: groups[k].selector
  }

  class MatchboxDirectory {
    var groups: map<(Marker, nat), Group>
    var writes: nat

    constructor ()
      ensures groups == map[] && writes == 0
    {
      groups, writes := map[], 0;
    }

    /** `dump`: whether the file was replaced. */
    method Dump(key: (Marker, nat), g: Group) returns (replaced: bool)
      modifies this
      ensures replaced <==> !(key in old(groups) && SameData(g, old(groups)[key]))
      ensures groups == if replaced then old(groups)[key := g] else old(groups)
      ensures writes == old(writes) + (if replaced then 1 else 0)
    {
      if key in groups && SameData(g, groups[key]) {
        return false;
      }
      groups, writes := groups[key := g], writes + 1;
      replaced := true;
    }
  }

  // ---------- what the files say ----------

  function RolesOfMarker(m: Marker): seq<Role> {
    if m == ControlPlaneGroup then CONTROL_PLANE_ROLES else NODE_ROLES
  }

  lemma RolesDiffer()
    ensures RolesOfMarker(ControlPlaneGroup) == CONTROL_PLANE_ROLES && RolesOfMarker(NodeGroup) == NODE_ROLES && CONTROL_PLANE_ROLES != NODE_ROLES
  {
    assert |CONTROL_PLANE_ROLES| != |NODE_ROLES|;
  }

  lemma MarkerHosts(f: Fleet, m: Marker)
    ensures RoleHosts(f, RolesOfMarker(m)) == HostsOfMarker(f, m)
  {
    RoleHostsNamed(f);
  }

  /** The file holds what the database says about the machine, for some answers about
      the etcd members. */
  ghost predicate Describes(f: Fleet, g: Group, m: Marker, i: nat, n: Nic, count: nat, port: nat) {
    exists cluster, members :: Answer(f, cluster) && Answer(f, members) && SameData(GroupFor(m, i, n, cluster, members, count, port), g)
  }

  /** The first k files of a listing describe its machines. */
  ghost predicate DescribedUpTo(f: Fleet, groups: map<(Marker, nat), Group>, m: Marker, sorted: seq<Nic>, k: nat, port: nat) {
    k <= |sorted| && forall i: nat :: i < k ==> (m, i) in groups && Describes(f, groups[(m, i)], m, i, sorted[i], |sorted|, port)
  }

  /** Every file of the series describes its machine, whatever order the rows come in. */
  ghost predicate Current(f: Fleet, groups: map<(Marker, nat), Group>, m: Marker, port: nat) {
    forall us, listed :: Enumerates(us, HostsOfMarker(f, m)) && BootNics(f, us, listed) ==>
      DescribedUpTo(f, groups, m, InOrder(listed), |listed|, port)
  }

  /** One listing in MAC order is every listing in MAC order. */
  lemma SameListing(f: Fleet, s: set<string>, us: seq<string>, l: seq<Nic>, vs: seq<string>, k: seq<Nic>)
    requires Coherent(f) && Enumerates(us, s) && BootNics(f, us, l) && Enumerates(vs, s) && BootNics(f, vs, k)
    ensures InOrder(l) == InOrder(k)
  {
    ListedOnce(f, s, us, l);
    ListedOnce(f, s, vs, k);
    ListedInBoth(f, s, us, l, vs, k);
    ListedInBoth(f, s, vs, k, us, l);
    BootTellsApart(f, us, l);
    hide *;
    OneOrder(l, k);
  }

  lemma ListedOnce(f: Fleet, s: set<string>, us: seq<string>, l: seq<Nic>)
    requires Coherent(f) && Enumerates(us, s) && BootNics(f, us, l)
    ensures Distinct(l)
  {
    NicsListedOnce(f, us, l);
  }

  lemma OneOrder(l: seq<Nic>, k: seq<Nic>)
    requires Distinct(l) && Distinct(k) && TellsApart(MacOf, l)
    requires (forall x :: x in l ==> x in k) && (forall x :: x in k ==> x in l)
    ensures InOrder(l) == InOrder(k)
  {
    assert Elements(l) == Elements(k);
    SameElements(l, k);
    InOrderPermutes(l);
    InOrderPermutes(k);
    forall x | x in InOrder(l) ensures x in l {
      assert x in multiset(InOrder(l));
      assert x in multiset(l);
    }
    SortedIsUnique(MacOf, InOrder(l), InOrder(k));
  }

  lemma ListedInBoth(f: Fleet, s: set<string>, us: seq<string>, l: seq<Nic>, vs: seq<string>, k: seq<Nic>)
    requires Enumerates(us, s) && BootNics(f, us, l) && Enumerates(vs, s) && BootNics(f, vs, k)
    ensures forall x :: x in l ==> x in k
  {
    forall x | x in l ensures x in k {
      var i :| 0 <= i < |l| && l[i] == x;
      assert us[i] in us && us[i] in vs;
      var j :| 0 <= j < |vs| && vs[j] == us[i];
      assert k[j] == x;
    }
  }

  lemma BootTellsApart(f: Fleet, us: seq<string>, l: seq<Nic>)
    requires Coherent(f) && BootNics(f, us, l)
    ensures TellsApart(MacOf, l)
  {
    hide Coherent, HasBoot;
    forall a, b | a in l && b in l && MacOf(a) == MacOf(b) ensures a == b {
      var i :| 0 <= i < |l| && l[i] == a;
      var j :| 0 <= j < |l| && l[j] == b;
      OneNicPerMac(f, us[i], us[j], a, b);
    }
  }

  lemma OneNicPerMac(f: Fleet, u: string, v: string, n: Nic, k: Nic)
    requires Coherent(f) && u in f.hosts && v in f.hosts && n in f.hosts[u].nics && k in f.hosts[v].nics && n.mac == k.mac
    ensures n == k
  {}

  // ---------- all hosts are told the same cluster ----------

  /** Where all answers agree, any two files that describe the fleet, of whichever series,
      carry the same initial cluster and the same members. */
  lemma SameClusterEverywhere(f: Fleet, g: Group, m: Marker, i: nat, n: Nic, a: nat, h: Group, c: Marker, j: nat, k: Nic, b: nat, port: nat)
    requires AllAnswersAgree(f) && Describes(f, g, m, i, n, a, port) && Describes(f, h, c, j, k, b, port)
    ensures g.initialCluster == h.initialCluster
    ensures (set x | x in g.members) == (set x | x in h.members)
  {
    var c1, b1 :| Answer(f, c1) && Answer(f, b1) && SameData(GroupFor(m, i, n, c1, b1, a, port), g);
    var c2, b2 :| Answer(f, c2) && Answer(f, b2) && SameData(GroupFor(c, j, k, c2, b2, b, port), h);
    hide Answer, MemberEntries, Sorted, JoinWith, Lower, AutomaticName;
    assert Sorted(c1) == Sorted(c2) && Sorted(b1) == Sorted(b2);
  }

  // ---------- boot interfaces listed first ----------

  /** The file describes its machine from answers that list the boot interfaces first. */
  ghost predicate DescribesByBoot(f: Fleet, g: Group, m: Marker, i: nat, n: Nic, count: nat, port: nat) {
    exists cluster, members ::
      BootAnswer(f, cluster) && BootAnswer(f, members) && SameData(GroupFor(m, i, n, cluster, members, count, port), g)
  }

  /** Then the files of all hosts, of whichever series, carry one initial cluster and one
      set of members, whatever other interfaces the members have. */
  lemma BootClusterEverywhere(f: Fleet, g: Group, m: Marker, i: nat, n: Nic, a: nat, h: Group, c: Marker, j: nat, k: Nic, b: nat, port: nat)
    requires DescribesByBoot(f, g, m, i, n, a, port) && DescribesByBoot(f, h, c, j, k, b, port)
    ensures g.initialCluster == h.initialCluster
    ensures (set x | x in g.members) == (set x | x in h.members)
  {
    var c1, b1 :| BootAnswer(f, c1) && BootAnswer(f, b1) && SameData(GroupFor(m, i, n, c1, b1, a, port), g);
    var c2, b2 :| BootAnswer(f, c2) && BootAnswer(f, b2) && SameData(GroupFor(c, j, k, c2, b2, b, port), h);
    hide BootAnswer, MemberEntries, Sorted, JoinWith, Lower, AutomaticName;
    BootAnswersAgree(f, c1, c2);
    BootAnswersAgree(f, b1, b2);
  }

  /** How often a file has its own name and peer URL in its own initial cluster. */
  ghost function OwnEntries(g: Group): nat {
    multiset(SplitOn(g.initialCluster, ','))[g.etcdName + "=" + g.advertisePeer]
  }

  lemma OwnEntriesAre(f: Fleet, g: Group, m: Marker, i: nat, n: Nic, c: seq<string>, b: seq<string>, count: nat, port: nat)
    requires WellAddressed(f) && ListedWithRole(f, EtcdMember) != {} && Answer(f, c) && SameData(GroupFor(m, i, n, c, b, count, port), g)
    ensures OwnEntries(g) == multiset(Sorted(c))[n.ipv4]
  {
    assert g.initialCluster == InitialCluster(c, port) && g.etcdName == n.ipv4;
    assert g.etcdName + "=" + g.advertisePeer == MemberEntry(n.ipv4, port) by {
      assert "=" + "https://" == "=https://";
    }
    AddressesArePlain(f);
    ClusterEntries(f, c, port);
    hide *;
    EntryCounts(Sorted(c), n.ipv4, port);
  }

  /** In its own file a member finds itself in the initial cluster, and exactly once if and
      only if no other member boots with its address. */
  lemma OwnEntryInFile(f: Fleet, g: Group, m: Marker, i: nat, u: string, count: nat, port: nat)
    requires WellAddressed(f) && u in ListedWithRole(f, EtcdMember) && u in f.hosts && HasBoot(f.hosts[u])
    requires DescribesByBoot(f, g, m, i, BootNic(f.hosts[u]), count, port)
    ensures OwnEntries(g) >= 1
    ensures OwnEntries(g) == 1 <==> OwnAddress(f, u)
  {
    var n := BootNic(f.hosts[u]);
    var c, b :| BootAnswer(f, c) && BootAnswer(f, b) && SameData(GroupFor(m, i, n, c, b, count, port), g);
    hide *;
    BootNicListed(f, u);
    BootAnswerIsAnswer(f, c);
    OwnEntriesAre(f, g, m, i, n, c, b, count, port);
    OwnEntryOnce(f, c, u);
  }

  ghost predicate AlwaysOneEntry(f: Fleet, m: Marker, i: nat, n: Nic, count: nat, port: nat) {
    forall g :: Describes(f, g, m, i, n, count, port) ==> OwnEntries(g) == 1
  }

  lemma DescribesItself(f: Fleet, m: Marker, i: nat, n: Nic, c: seq<string>, b: seq<string>, count: nat, port: nat)
    requires Answer(f, c) && Answer(f, b)
    ensures Describes(f, GroupFor(m, i, n, c, b, count, port), m, i, n, count, port)
  {
    hide Answer, GroupFor;
    var g := GroupFor(m, i, n, c, b, count, port);
    assert SameData(g, g);
  }

  /** Whichever interfaces the database lists first: a member finds itself exactly once in
      every file that describes it if and only if all its interfaces carry one address and
      no other member has an interface with it. */
  lemma OwnEntryInFileIff(f: Fleet, m: Marker, i: nat, u: string, count: nat, port: nat)
    requires WellAddressed(f) && u in ListedWithRole(f, EtcdMember) && u in f.hosts && HasBoot(f.hosts[u])
    ensures AlwaysOneEntry(f, m, i, BootNic(f.hosts[u]), count, port) <==> AddressApart(f, u)
  {
    hide WellAddressed, ListedWithRole, HasBoot, BootNic, BootIp, Answer, GroupFor, SameData, OwnEntries, AddressApart, Sorted;
    var n := BootNic(f.hosts[u]);
    BootNicListed(f, u);
    OwnEntryIff(f, u);
    if AddressApart(f, u) {
      forall g | Describes(f, g, m, i, n, count, port) ensures OwnEntries(g) == 1 {
        var c, b :| Answer(f, c) && Answer(f, b) && SameData(GroupFor(m, i, n, c, b, count, port), g);
        OwnEntriesAre(f, g, m, i, n, c, b, count, port);
      }
    }
    if AlwaysOneEntry(f, m, i, n, count, port) {
      forall c | Answer(f, c) ensures multiset(Sorted(c))[BootIp(f, u)] == 1 {
        var g := GroupFor(m, i, n, c, c, count, port);
        DescribesItself(f, m, i, n, c, c, count, port);
        assert SameData(g, g) by { SameDataItself(g); }
        OwnEntriesAre(f, g, m, i, n, c, c, count, port);
      }
    }
  }

  lemma SameDataItself(g: Group)
    ensures SameData(g, g)
  {}

  // ---------- what a file says, field by field ----------

  /** The entries of the initial cluster, one for each address of an answer, in order. */
  ghost predicate ClusterOf(text: string, ips: seq<string>, port: nat) {
    exists sorted: seq<string>, entries: seq<string> ::
      && multiset(sorted) == multiset(ips) && SortedBy(Itself, sorted) && |entries| == |sorted|
      && (forall k :: 0 <= k < |sorted| ==> entries[k] == sorted[k] + "=https://" + sorted[k] + ":" + Decimal(port))
      && text == JoinWith(entries, ',')
  }

  /** `etcd_member_ip_list`: the addresses of some answer, in order. */
  ghost predicate ListsAnswer(f: Fleet, members: seq<string>) {
    SortedBy(Itself, members) && exists ips :: Answer(f, ips) && multiset(members) == multiset(ips)
  }

  /** The name the sync gives the machine of file i. */
  function GivenName(m: Marker, i: nat, ip: string): string {
    (if m.ControlPlaneGroup? then "cp-" else "no-") + Decimal(i) + "-" + Dashed(ip)
  }

  ghost predicate Says(f: Fleet, g: Group, m: Marker, i: nat, n: Nic, count: nat, port: nat) {
    && g.selector == Lower(n.mac) && g.etcdName == n.ipv4 && g.advertisePeer == "https://" + n.ipv4 + ":" + Decimal(port)
    && g.nodeName == (if n.fqdn.Some? && n.fqdn.value != "" && n.fqdn.value != GivenName(m, i, n.ipv4) then n.fqdn.value else n.ipv4)
    && g.apiserverCount == (if m.ControlPlaneGroup? then Some(count) else None)
    && ListsAnswer(f, g.members)
    && exists ips :: Answer(f, ips) && ClusterOf(g.initialCluster, ips, port)
  }

  lemma InitialClusterIs(ips: seq<string>, port: nat)
    ensures ClusterOf(InitialCluster(ips, port), ips, port)
  {
    var sorted, entries := Sorted(ips), MemberEntries(Sorted(ips), port);
    assert |entries| == |sorted| && forall k :: 0 <= k < |sorted| ==> entries[k] == sorted[k] + "=https://" + sorted[k] + ":" + Decimal(port);
    hide MemberEntries, Sorted, SortedBy, JoinWith;
    assert multiset(sorted) == multiset(ips) && SortedBy(Itself, sorted) && InitialCluster(ips, port) == JoinWith(entries, ',');
  }

  lemma NamesAre(m: Marker, i: nat, ip: string)
    ensures AutomaticName(m, i, ip) == GivenName(m, i, ip)
  {}

  /** Every file that is written says what the source puts into it. */
  lemma AskedSays(f: Fleet, g: Group, m: Marker, i: nat, n: Nic, count: nat, port: nat)
    requires Asked(f, g, m, i, n, count, port)
    ensures Says(f, g, m, i, n, count, port)
  {
    hide Answer, Lower, AutomaticName, GivenName, InitialCluster, ClusterOf, SortedBy;
    var cluster, members :| Answer(f, cluster) && Answer(f, members) && g == GroupFor(m, i, n, cluster, members, count, port);
    InitialClusterIs(cluster, port);
    NamesAre(m, i, n.ipv4);
  }

  lemma AnswerAddresses(f: Fleet, ips: seq<string>)
    requires Answer(f, ips)
    ensures |ips| == |ListedWithRole(f, EtcdMember)|
    ensures forall x :: x in ips ==> exists u :: u in ListedWithRole(f, EtcdMember) && u in f.hosts && HasIp(f.hosts[u], x)
    ensures forall u :: u in ListedWithRole(f, EtcdMember) ==> u in f.hosts && exists x :: x in ips && HasIp(f.hosts[u], x)
  {
    hide HasIp, ListedWithRole;
    var us :| Enumerates(us, ListedWithRole(f, EtcdMember)) && SomeIps(f, us, ips);
    EnumeratesAll(us, ListedWithRole(f, EtcdMember));
    forall x | x in ips ensures exists u :: u in ListedWithRole(f, EtcdMember) && u in f.hosts && HasIp(f.hosts[u], x) {
      var k :| 0 <= k < |ips| && ips[k] == x;
      assert us[k] in us;
      assert HasIp(f.hosts[us[k]], x);
    }
    forall u | u in ListedWithRole(f, EtcdMember) ensures u in f.hosts && exists x :: x in ips && HasIp(f.hosts[u], x) {
      assert u in us;
      var k :| 0 <= k < |us| && us[k] == u;
      assert ips[k] in ips && HasIp(f.hosts[u], ips[k]);
    }
  }

  lemma SameBagSameElements(a: seq<string>, b: seq<string>)
    requires multiset(a) == multiset(b)
    ensures |a| == |b| && forall x :: x in a <==> x in b
  {
    SameLength(a, b);
    forall x ensures x in a <==> x in b {
      assert x in multiset(a) <==> x in multiset(b);
    }
  }

  /** A written file lists one address for each etcd member: every address listed is that of
      an interface of a member, and every member has one. */
  lemma MembersListed(f: Fleet, g: Group, m: Marker, i: nat, n: Nic, count: nat, port: nat)
    requires Says(f, g, m, i, n, count, port)
    ensures |g.members| == |ListedWithRole(f, EtcdMember)|
    ensures ListsMembers(f, g)
  {
    hide HasIp, ListedWithRole, Answer, Lower, GivenName, ClusterOf, SortedBy, Decimal;
    var ips :| Answer(f, ips) && multiset(g.members) == multiset(ips);
    AnswerAddresses(f, ips);
    SameBagSameElements(g.members, ips);
  }

  ghost predicate ListsMembers(f: Fleet, g: Group) {
    && (forall x :: x in g.members ==> exists u :: u in ListedWithRole(f, EtcdMember) && u in f.hosts && HasIp(f.hosts[u], x))
    && (forall u :: u in ListedWithRole(f, EtcdMember) ==> u in f.hosts && exists x :: x in g.members && HasIp(f.hosts[u], x))
  }

  /** So does a file that was left because a written one would have had the same data. */
  lemma DescribesMembers(f: Fleet, g: Group, m: Marker, i: nat, n: Nic, count: nat, port: nat)
    requires Describes(f, g, m, i, n, count, port)
    ensures ListsMembers(f, g)
  {
    hide HasIp, ListedWithRole, Answer, Lower, AutomaticName, InitialCluster, Decimal, Sorted;
    var c, b :| Answer(f, c) && Answer(f, b) && SameData(GroupFor(m, i, n, c, b, count, port), g);
    hide *;
    AnswerAddresses(f, b);
    DataSays(g, m, i, n, c, b, count, port);
    ListsAll(f, g, b);
  }

  lemma ListsAll(f: Fleet, g: Group, ips: seq<string>)
    requires forall x :: x in g.members <==> x in ips
    requires forall x :: x in ips ==> exists u :: u in ListedWithRole(f, EtcdMember) && u in f.hosts && HasIp(f.hosts[u], x)
    requires forall u :: u in ListedWithRole(f, EtcdMember) ==> u in f.hosts && exists x :: x in ips && HasIp(f.hosts[u], x)
    ensures ListsMembers(f, g)
  {
    hide HasIp, ListedWithRole;
    forall u | u in ListedWithRole(f, EtcdMember) ensures u in f.hosts && exists x :: x in g.members && HasIp(f.hosts[u], x) {
      var x :| x in ips && HasIp(f.hosts[u], x);
      assert x in g.members;
    }
  }

  lemma DataSays(g: Group, m: Marker, i: nat, n: Nic, c: seq<string>, b: seq<string>, count: nat, port: nat)
    requires SameData(GroupFor(m, i, n, c, b, count, port), g)
    ensures g.initialCluster == InitialCluster(c, port) && forall x :: x in g.members <==> x in b
  {
    hide InitialCluster, Sorted, Lower, AutomaticName, Decimal;
    SortedElements(b);
    SameSets(Sorted(b), g.members);
  }

  lemma SameSets(a: seq<string>, b: seq<string>)
    requires (set x | x in a) == (set x | x in b)
    ensures forall x :: x in a <==> x in b
  {
    var s, t := set x | x in a, set x | x in b;
    assert forall x :: (x in s <==> x in a) && (x in t <==> x in b);
  }

  lemma SortedElements(b: seq<string>)
    ensures forall x :: x in Sorted(b) <==> x in b
  {
    SameBagSameElements(Sorted(b), b);
  }

  /** Only the number of entries is not fixed for such a file: lists are compared as sets, so
      one with an address repeated is left as it is. */
  lemma RepeatedKept(f: Fleet, g: Group, m: Marker, i: nat, n: Nic, count: nat, port: nat)
    requires Describes(f, g, m, i, n, count, port) && g.members != []
    ensures Describes(f, g.(members := g.members + [g.members[0]]), m, i, n, count, port)
  {
    hide Answer, GroupFor;
    var c, b :| Answer(f, c) && Answer(f, b) && SameData(GroupFor(m, i, n, c, b, count, port), g);
    var h := g.(members := g.members + [g.members[0]]);
    assert (set x | x in h.members) == (set x | x in g.members);
    assert SameData(GroupFor(m, i, n, c, b, count, port), h);
  }

  lemma BootAnswerAddresses(f: Fleet, ips: seq<string>)
    requires BootAnswer(f, ips)
    ensures |ips| == |ListedWithRole(f, EtcdMember)|
    ensures forall x :: x in ips <==> exists u :: u in ListedWithRole(f, EtcdMember) && BootIp(f, u) == x
  {
    hide ListedWithRole, BootIp;
    var us :| Enumerates(us, ListedWithRole(f, EtcdMember)) && BootIps(f, us, ips);
    EnumeratesAll(us, ListedWithRole(f, EtcdMember));
    forall x ensures x in ips <==> exists u :: u in ListedWithRole(f, EtcdMember) && BootIp(f, u) == x {
      if x in ips {
        var k :| 0 <= k < |ips| && ips[k] == x;
        assert us[k] in ListedWithRole(f, EtcdMember);
      }
      if u :| u in ListedWithRole(f, EtcdMember) && BootIp(f, u) == x {
        assert u in us;
        var k :| 0 <= k < |us| && us[k] == u;
        assert ips[k] == x;
      }
    }
  }

  /** With the boot interfaces listed first a file lists exactly the boot addresses of the
      members, and its initial cluster has one entry per member, for each of them. */
  lemma BootMembersListed(f: Fleet, g: Group, m: Marker, i: nat, n: Nic, count: nat, port: nat)
    requires WellAddressed(f) && ListedWithRole(f, EtcdMember) != {} && DescribesByBoot(f, g, m, i, n, count, port)
    ensures forall x :: x in g.members <==> exists u :: u in ListedWithRole(f, EtcdMember) && BootIp(f, u) == x
    ensures |SplitOn(g.initialCluster, ',')| == |ListedWithRole(f, EtcdMember)|
    ensures forall e :: e in SplitOn(g.initialCluster, ',') <==> exists x :: x in g.members && e == x + "=https://" + x + ":" + Decimal(port)
  {
    hide *;
    var c, b := BootSources(f, g, m, i, n, count, port);
    DataSays(g, m, i, n, c, b, count, port);
    BootAnswerAddresses(f, b);
    BootAnswerAddresses(f, c);
    BootAnswerIsAnswer(f, c);
    AddressesArePlain(f);
    ClusterEntries(f, c, port);
    SortedElements(c);
    assert forall x :: x in g.members <==> x in Sorted(c);
    forall e ensures e in SplitOn(g.initialCluster, ',') <==> exists x :: x in g.members && e == x + "=https://" + x + ":" + Decimal(port) {
      EntryOfSome(Sorted(c), port, e);
    }
  }

  lemma BootSources(f: Fleet, g: Group, m: Marker, i: nat, n: Nic, count: nat, port: nat) returns (c: seq<string>, b: seq<string>)
    requires DescribesByBoot(f, g, m, i, n, count, port)
    ensures BootAnswer(f, c) && BootAnswer(f, b) && SameData(GroupFor(m, i, n, c, b, count, port), g)
  {
    hide BootAnswer, GroupFor, SameData;
    c, b :| BootAnswer(f, c) && BootAnswer(f, b) && SameData(GroupFor(m, i, n, c, b, count, port), g);
  }

  lemma EntryOfSome(ips: seq<string>, port: nat, e: string)
    ensures e in MemberEntries(ips, port) <==> exists x :: x in ips && e == x + "=https://" + x + ":" + Decimal(port)
  {
    var entries := MemberEntries(ips, port);
    if e in entries {
      var k :| 0 <= k < |entries| && entries[k] == e;
      assert ips[k] in ips && e == ips[k] + "=https://" + ips[k] + ":" + Decimal(port);
    }
    if x :| x in ips && e == x + "=https://" + x + ":" + Decimal(port) {
      var k :| 0 <= k < |ips| && ips[k] == x;
      assert entries[k] == e;
    }
  }

  // ---------- when a further sync has nothing to write ----------

  /** Any two files that describe the machine have the same data. */
  ghost predicate OneDescription(f: Fleet, m: Marker, i: nat, n: Nic, count: nat, port: nat) {
    forall g, h :: Describes(f, g, m, i, n, count, port) && Describes(f, h, m, i, n, count, port) ==> SameData(g, h)
  }

  lemma SameTextSameMembers(f: Fleet, ips: seq<string>, jps: seq<string>, port: nat)
    requires WellAddressed(f) && ListedWithRole(f, EtcdMember) != {} && Answer(f, ips) && Answer(f, jps)
    requires InitialCluster(ips, port) == InitialCluster(jps, port)
    ensures Sorted(ips) == Sorted(jps)
  {
    hide *;
    AddressesArePlain(f);
    ClusterEntries(f, ips, port);
    ClusterEntries(f, jps, port);
    SameEntries(Sorted(ips), Sorted(jps), port);
  }

  lemma SameEntries(a: seq<string>, b: seq<string>, port: nat)
    requires MemberEntries(a, port) == MemberEntries(b, port)
    ensures a == b
  {
    assert |a| == |MemberEntries(a, port)| && |b| == |MemberEntries(b, port)|;
    forall i | 0 <= i < |a| ensures a[i] == b[i] {
      assert MemberEntries(a, port)[i] == MemberEntries(b, port)[i];
      EntriesApart(a[i], b[i], port);
    }
  }

  /** A file that is current can be found different by a further sync of the unchanged fleet
      unless all answers agree: that condition is exact. */
  lemma OneDescriptionIff(f: Fleet, m: Marker, i: nat, n: Nic, count: nat, port: nat)
    requires WellAddressed(f)
    ensures OneDescription(f, m, i, n, count, port) <==> AllAnswersAgree(f)
  {
    hide WellAddressed, Answer, SameData, GroupFor, InitialCluster, Sorted;
    if AllAnswersAgree(f) {
      forall g, h | Describes(f, g, m, i, n, count, port) && Describes(f, h, m, i, n, count, port) ensures SameData(g, h) {
        var c, b :| Answer(f, c) && Answer(f, b) && SameData(GroupFor(m, i, n, c, b, count, port), g);
        AgreeingData(f, h, m, i, n, count, port, c, b);
        SameDataTwice(GroupFor(m, i, n, c, b, count, port), g, h);
      }
    }
    if OneDescription(f, m, i, n, count, port) {
      if ListedWithRole(f, EtcdMember) == {} {
        AnswersAgreeIff(f);
      } else {
        forall ips, jps | Answer(f, ips) && Answer(f, jps) ensures Sorted(ips) == Sorted(jps) {
          DescribesItself(f, m, i, n, ips, ips, count, port);
          DescribesItself(f, m, i, n, jps, jps, count, port);
          SameText(m, i, n, ips, jps, count, port);
          SameTextSameMembers(f, ips, jps, port);
        }
      }
    }
  }

  lemma SameDataTwice(x: Group, g: Group, h: Group)
    requires SameData(x, g) && SameData(x, h)
    ensures SameData(g, h)
  {}

  lemma SameText(m: Marker, i: nat, n: Nic, c: seq<string>, d: seq<string>, count: nat, port: nat)
    requires SameData(GroupFor(m, i, n, c, c, count, port), GroupFor(m, i, n, d, d, count, port))
    ensures InitialCluster(c, port) == InitialCluster(d, port)
  {}

  /** In a partitioned fleet whose control planes can be listed, the etcd members are the
      control planes. */
  lemma MembersAreControlPlanes(f: Fleet)
    requires RolePartition(f) && AllHaveBoot(f, ControlPlanes(f))
    ensures ListedWithRole(f, EtcdMember) == ControlPlanes(f)
  {
    forall u | u in f.hosts ensures EtcdMember in f.hosts[u].roles <==> RunsControlPlane(f.hosts[u]) {
      Kinds(f.hosts[u]);
      EtcdOnlyThere(f.hosts[u]);
    }
    hide RunsControlPlane, HasNoRole, IsControlPlane, IsNode, HasBoot;
  }

  lemma EtcdOnlyThere(h: Host)
    requires HasNoRole(h) || IsControlPlane(h) || IsNode(h)
    ensures EtcdMember in h.roles <==> IsControlPlane(h)
  {
    assert EtcdMember in CONTROL_PLANE_ROLES && EtcdMember !in NODE_ROLES;
  }

  /** The number of API servers in a control plane's file is the number of entries of its
      initial cluster. */
  lemma CountIsClusterSize(f: Fleet, g: Group, i: nat, n: Nic, port: nat)
    requires RolePartition(f) && AllHaveBoot(f, ControlPlanes(f)) && WellAddressed(f) && ControlPlanes(f) != {}
    requires Describes(f, g, ControlPlaneGroup, i, n, |ControlPlanes(f)|, port)
    ensures g.apiserverCount == Some(|SplitOn(g.initialCluster, ',')|)
  {
    var c, b :| Answer(f, c) && Answer(f, b) && SameData(GroupFor(ControlPlaneGroup, i, n, c, b, |ControlPlanes(f)|, port), g);
    MembersAreControlPlanes(f);
    AddressesArePlain(f);
    hide Answer, RolePartition, WellAddressed, AddressesPlain, InitialCluster, Sorted, Lower, AutomaticName, ListedWithRole, ControlPlanes;
    ClusterEntries(f, c, port);
  }

  // ---------- one file ----------

  lemma AgreeingData(f: Fleet, g: Group, m: Marker, i: nat, n: Nic, count: nat, port: nat, cluster: seq<string>, members: seq<string>)
    requires AllAnswersAgree(f) && Describes(f, g, m, i, n, count, port) && Answer(f, cluster) && Answer(f, members)
    ensures SameData(GroupFor(m, i, n, cluster, members, count, port), g)
  {
    var c, b :| Answer(f, c) && Answer(f, b) && SameData(GroupFor(m, i, n, c, b, count, port), g);
    hide Answer, SameData, Sorted, MemberEntries;
    assert Sorted(c) == Sorted(cluster) && Sorted(b) == Sorted(members);
  }

  /** The directory before and after one `dump`. */
  ghost predicate Dumped(groups: map<(Marker, nat), Group>, after: map<(Marker, nat), Group>, key: (Marker, nat), g: Group) {
    if key in groups && SameData(g, groups[key]) then after == groups else after == groups[key := g]
  }

  lemma DumpedSelects(groups: map<(Marker, nat), Group>, after: map<(Marker, nat), Group>, key: (Marker, nat), g: Group)
    requires Dumped(groups, after, key, g)
    ensures Selected(after) == Selected(groups)[key := g.selector]
  {}

  lemma DumpedDescribes(f: Fleet, groups: map<(Marker, nat), Group>, after: map<(Marker, nat), Group>, m: Marker, sorted: seq<Nic>,
                        k: nat, cluster: seq<string>, members: seq<string>, port: nat)
    requires DescribedUpTo(f, groups, m, sorted, k, port) && k < |sorted| && Answer(f, cluster) && Answer(f, members)
    requires Dumped(groups, after, (m, k), GroupFor(m, k, sorted[k], cluster, members, |sorted|, port))
    ensures DescribedUpTo(f, after, m, sorted, k + 1, port)
  {
    hide Answer, GroupFor, Describes, SameData;
    DumpedNew(f, groups, after, m, k, sorted[k], |sorted|, cluster, members, port);
    forall i: nat | i < k ensures (m, i) in after && Describes(f, after[(m, i)], m, i, sorted[i], |sorted|, port) {
      assert (m, i) != (m, k);
    }
  }

  lemma DumpedNew(f: Fleet, groups: map<(Marker, nat), Group>, after: map<(Marker, nat), Group>, m: Marker, k: nat, n: Nic, count: nat,
                  cluster: seq<string>, members: seq<string>, port: nat)
    requires Answer(f, cluster) && Answer(f, members) && Dumped(groups, after, (m, k), GroupFor(m, k, n, cluster, members, count, port))
    ensures (m, k) in after && Describes(f, after[(m, k)], m, k, n, count, port)
  {
    hide Answer, GroupFor;
    assert SameData(GroupFor(m, k, n, cluster, members, count, port), after[(m, k)]);
  }

  lemma WrittenNext(files: Files, m: Marker, sorted: seq<Nic>, k: nat)
    requires k < |sorted|
    ensures Written(files, m, sorted, k + 1) == Written(files, m, sorted, k)[(m, k) := Lower(sorted[k].mac)]
    ensures Written(files, m, sorted, 0) == files
  {}

  /** A whole series described for one listing is described for all. */
  lemma WholeIsCurrent(f: Fleet, groups: map<(Marker, nat), Group>, m: Marker, us: seq<string>, listed: seq<Nic>, port: nat)
    requires Coherent(f) && Enumerates(us, HostsOfMarker(f, m)) && BootNics(f, us, listed)
    requires DescribedUpTo(f, groups, m, InOrder(listed), |listed|, port)
    ensures Current(f, groups, m, port)
  {
    hide Enumerates, BootNics, Coherent, DescribedUpTo, InOrder, HostsOfMarker;
    forall vs, other | Enumerates(vs, HostsOfMarker(f, m)) && BootNics(f, vs, other)
      ensures DescribedUpTo(f, groups, m, InOrder(other), |other|, port)
    {
      SameListing(f, HostsOfMarker(f, m), us, listed, vs, other);
    }
  }

  lemma DescribedAt(f: Fleet, groups: map<(Marker, nat), Group>, m: Marker, sorted: seq<Nic>, port: nat, i: nat)
    requires DescribedUpTo(f, groups, m, sorted, |sorted|, port) && i < |sorted|
    ensures (m, i) in groups && Describes(f, groups[(m, i)], m, i, sorted[i], |sorted|, port)
  {}

  // ---------- a series ----------

  ghost predicate MacsValid(f: Fleet) {
    forall u, n :: u in f.hosts && n in f.hosts[u].nics ==> IsMac(n.mac)
  }

  lemma AddressedMacs(f: Fleet)
    requires WellAddressed(f)
    ensures MacsValid(f)
  {}

  lemma ListedMacValid(f: Fleet, us: seq<string>, listed: seq<Nic>, i: nat)
    requires MacsValid(f) && BootNics(f, us, listed) && i < |listed|
    ensures IsLowerMac(Lower(InOrder(listed)[i].mac))
  {
    InOrderPermutes(listed);
    var a := OriginOf(listed, InOrder(listed), i);
    assert us[a] in f.hosts && listed[a] in f.hosts[us[a]].nics;
    LowerMac(listed[a].mac);
  }

  /** g is a file that the database, as some two answers show it, asks for at place i. */
  ghost predicate Asked(f: Fleet, g: Group, m: Marker, i: nat, n: Nic, count: nat, port: nat) {
    exists cluster, members :: Answer(f, cluster) && Answer(f, members) && g == GroupFor(m, i, n, cluster, members, count, port)
  }

  lemma IsAsked(f: Fleet, m: Marker, i: nat, n: Nic, cluster: seq<string>, members: seq<string>, count: nat, port: nat)
    requires Answer(f, cluster) && Answer(f, members)
    ensures Asked(f, GroupFor(m, i, n, cluster, members, count, port), m, i, n, count, port)
    ensures GroupFor(m, i, n, cluster, members, count, port).selector == Lower(n.mac)
  {}

  /** How far a series got: its machines were not read, or the first k files are written. */
  datatype Progress = Unread | Wrote(us: seq<string>, listed: seq<Nic>, k: nat)

  ghost predicate Progressed(f: Fleet, before: Files, after: Files, m: Marker, p: Progress) {
    match p
    case Unread => after == before
    case Wrote(us, listed, k) =>
      && Enumerates(us, HostsOfMarker(f, m)) && BootNics(f, us, listed) && k <= |listed|
      && after == Written(before, m, InOrder(listed), k)
  }

  ghost predicate Settled(f: Fleet, groups: map<(Marker, nat), Group>, m: Marker, port: nat) {
    AllAnswersAgree(f) && Current(f, groups, m, port)
  }

  /** The role can be listed and every MAC is one. */
  ghost predicate Readable(f: Fleet, m: Marker) {
    MacsValid(f) && AllHaveBoot(f, HostsOfMarker(f, m))
  }

  lemma ReadableSays(f: Fleet, m: Marker)
    ensures Readable(f, m) ==> MacsValid(f) && AllHaveBoot(f, HostsOfMarker(f, m))
  {}

  ghost predicate OthersSame(was: map<(Marker, nat), Group>, now: map<(Marker, nat), Group>, m: Marker) {
    forall c: Marker, i: nat :: c != m ==> ((c, i) in now <==> (c, i) in was) && ((c, i) in now ==> now[(c, i)] == was[(c, i)])
  }

  lemma OthersStay(a: map<(Marker, nat), Group>, b: map<(Marker, nat), Group>, c: map<(Marker, nat), Group>, m: Marker)
    requires OthersSame(a, b, m) && OthersSame(b, c, m)
    ensures OthersSame(a, c, m)
  {}

  // ---------- both series ----------

  ghost predicate BothCurrent(f: Fleet, groups: map<(Marker, nat), Group>, port: nat) {
    Current(f, groups, ControlPlaneGroup, port) && Current(f, groups, NodeGroup, port)
  }

  ghost predicate BothSettled(f: Fleet, groups: map<(Marker, nat), Group>, port: nat) {
    AllAnswersAgree(f) && BothCurrent(f, groups, port)
  }

  ghost predicate BothReadable(f: Fleet) {
    Readable(f, ControlPlaneGroup) && Readable(f, NodeGroup)
  }

  lemma BothSays(f: Fleet, groups: map<(Marker, nat), Group>, port: nat)
    ensures BothSettled(f, groups, port) ==> Settled(f, groups, ControlPlaneGroup, port) && Settled(f, groups, NodeGroup, port)
    ensures BothReadable(f) ==> Readable(f, ControlPlaneGroup) && Readable(f, NodeGroup)
    ensures HostsOfMarker(f, ControlPlaneGroup) == ControlPlanes(f) && HostsOfMarker(f, NodeGroup) == Nodes(f)
  {}

  /** From a due sync the step system comes to a finished one, or back to a due one; and
      where no series had more files than machines, a finished one has exactly the files
      of the fleet. */
  ghost predicate SyncedFrom(expected: nat, f: Fleet, was: map<(Marker, nat), Group>, now: map<(Marker, nat), Group>, finished: bool) {
    && Reaches(expected, State(f, SyncDue, Selected(was)), State(f, if finished then Idle else SyncDue, Selected(now)))
    && (Coherent(f) && FilesInv(State(f, SyncDue, Selected(was))) ==>
          FilesInv(State(f, SyncDue, Selected(now))) && (finished ==> BothExact(f, Selected(now))))
  }

  ghost predicate BothExact(f: Fleet, files: Files) {
    (exists ms :: Exact(f, files, ControlPlaneGroup, ms)) && (exists ms :: Exact(f, files, NodeGroup, ms))
  }

  /** Where a try stands in between. */
  ghost predicate Midway(expected: nat, f: Fleet, was: map<(Marker, nat), Group>, now: map<(Marker, nat), Group>, phase: Phase) {
    && Reaches(expected, State(f, SyncDue, Selected(was)), State(f, phase, Selected(now)))
    && (Coherent(f) && FilesInv(State(f, SyncDue, Selected(was))) ==>
          && FilesInv(State(f, SyncDue, Selected(now)))
          && (phase in {NodeSyncDue, NotifyDue} ==> exists ms :: Exact(f, Selected(now), ControlPlaneGroup, ms))
          && (phase == NotifyDue ==> exists ms :: Exact(f, Selected(now), NodeGroup, ms)))
  }

  lemma NotSyncedYet(expected: nat, f: Fleet, was: map<(Marker, nat), Group>)
    ensures SyncedFrom(expected, f, was, was, false)
  {
    hide Reaches, FilesInv, Selected;
    ReachesItself(expected, State(f, SyncDue, Selected(was)));
  }

  lemma SyncedOn(expected: nat, f: Fleet, was: map<(Marker, nat), Group>, now: map<(Marker, nat), Group>, next: map<(Marker, nat), Group>, finished: bool)
    requires SyncedFrom(expected, f, was, now, false) && SyncedFrom(expected, f, now, next, finished)
    ensures SyncedFrom(expected, f, was, next, finished)
  {
    hide Reaches, FilesInv, Selected, BothExact, Coherent;
    ReachesOn(expected, State(f, SyncDue, Selected(was)), State(f, SyncDue, Selected(now)), State(f, if finished then Idle else SyncDue, Selected(next)));
  }

  lemma ProgressFits(f: Fleet, before: Files, after: Files, m: Marker, p: Progress)
    requires Progressed(f, before, after, m, p) && Coherent(f) && FilesInv(State(f, SyncDue, before))
    ensures FilesInv(State(f, SyncDue, after))
    ensures p.Wrote? && p.k == |p.listed| ==> exists ms :: Exact(f, after, m, ms)
    ensures forall c: Marker, ns :: c != m && Exact(f, before, c, ns) ==> Exact(f, after, c, ns)
  {
    hide Fits, Coherent, HostsOfMarker, Written, Exact, InOrder, BootNics, Enumerates;
    if p.Wrote? {
      SameCount(f, p.us, p.listed);
      WritingFits(f, before, m, p.us, InOrder(p.listed), p.k, ControlPlaneGroup);
      WritingFits(f, before, m, p.us, InOrder(p.listed), p.k, NodeGroup);
      if p.k == |p.listed| { WholeSeries(f, before, m, p.us, p.listed); }
      forall c: Marker, ns | c != m && Exact(f, before, c, ns) ensures Exact(f, after, c, ns) {
        OtherSeries(f, before, m, InOrder(p.listed), p.k, c, ns);
      }
    }
  }

  lemma ControlPlaneStep(expected: nat, f: Fleet, before: Files, after: Files, p: Progress)
    requires Progressed(f, before, after, ControlPlaneGroup, p) && p.Wrote?
    ensures var s, ev, t := State(f, SyncDue, before), SyncControlPlanes(p.us, p.listed, p.k),
                            State(f, if p.k == |p.listed| then NodeSyncDue else SyncDue, after);
      Step(expected, s, ev, t) && Orderly(s, ev)
  {
    hide ControlPlanes, Enumerates, BootNics, InOrder, Written;
  }

  lemma NodeStep(expected: nat, f: Fleet, before: Files, after: Files, p: Progress)
    requires Progressed(f, before, after, NodeGroup, p) && p.Wrote?
    ensures var s, ev, t := State(f, NodeSyncDue, before), SyncNodes(p.us, p.listed, p.k),
                            State(f, if p.k == |p.listed| then NotifyDue else SyncDue, after);
      Step(expected, s, ev, t) && Orderly(s, ev)
  {
    hide Nodes, Enumerates, BootNics, InOrder, Written;
  }

  lemma FirstReaches(expected: nat, f: Fleet, before: Files, after: Files, p: Progress)
    requires Progressed(f, before, after, ControlPlaneGroup, p)
    ensures Reaches(expected, State(f, SyncDue, before), State(f, if p.Wrote? && p.k == |p.listed| then NodeSyncDue else SyncDue, after))
  {
    hide Reaches, Written, InOrder, Enumerates, BootNics, HostsOfMarker;
    var s := State(f, SyncDue, before);
    ReachesItself(expected, s);
    if p.Wrote? {
      ControlPlaneStep(expected, f, before, after, p);
      ReachesNext(expected, s, s, SyncControlPlanes(p.us, p.listed, p.k), State(f, if p.k == |p.listed| then NodeSyncDue else SyncDue, after));
    }
  }

  lemma SecondReaches(expected: nat, f: Fleet, s: State, before: Files, after: Files, p: Progress)
    requires Reaches(expected, s, State(f, NodeSyncDue, before)) && Progressed(f, before, after, NodeGroup, p)
    ensures Reaches(expected, s, State(f, if p.Wrote? && p.k == |p.listed| then NotifyDue else SyncDue, after))
  {
    hide Reaches, Written, InOrder, Enumerates, BootNics, HostsOfMarker;
    var a := State(f, NodeSyncDue, before);
    if p.Wrote? {
      NodeStep(expected, f, before, after, p);
      ReachesNext(expected, s, a, SyncNodes(p.us, p.listed, p.k), State(f, if p.k == |p.listed| then NotifyDue else SyncDue, after));
    } else {
      ReachesNext(expected, s, a, Retried, State(f, SyncDue, before));
    }
  }

  lemma FirstSeries(expected: nat, f: Fleet, was: map<(Marker, nat), Group>, now: map<(Marker, nat), Group>, p: Progress)
    requires Progressed(f, Selected(was), Selected(now), ControlPlaneGroup, p)
    ensures p.Wrote? && p.k == |p.listed| ==> Midway(expected, f, was, now, NodeSyncDue)
    ensures !(p.Wrote? && p.k == |p.listed|) ==> SyncedFrom(expected, f, was, now, false)
  {
    hide Reaches, Selected, Progressed, FilesInv, Coherent, Exact;
    FirstReaches(expected, f, Selected(was), Selected(now), p);
    if Coherent(f) && FilesInv(State(f, SyncDue, Selected(was))) {
      ProgressFits(f, Selected(was), Selected(now), ControlPlaneGroup, p);
    }
  }

  lemma SecondSeries(expected: nat, f: Fleet, was: map<(Marker, nat), Group>, mid: map<(Marker, nat), Group>, now: map<(Marker, nat), Group>,
                     p: Progress, q: Progress)
    requires p.Wrote? && p.k == |p.listed| ==> Midway(expected, f, was, mid, NodeSyncDue)
    requires p.Wrote? && p.k == |p.listed| && Progressed(f, Selected(mid), Selected(now), NodeGroup, q)
    ensures q.Wrote? && q.k == |q.listed| ==> Midway(expected, f, was, now, NotifyDue)
    ensures !(q.Wrote? && q.k == |q.listed|) ==> SyncedFrom(expected, f, was, now, false)
  {
    hide Reaches, Selected, Progressed, FilesInv, Coherent, Exact;
    SecondReaches(expected, f, State(f, SyncDue, Selected(was)), Selected(mid), Selected(now), q);
    if Coherent(f) && FilesInv(State(f, SyncDue, Selected(was))) {
      ProgressFits(f, Selected(mid), Selected(now), NodeGroup, q);
    }
  }

  lemma AfterNotify(expected: nat, f: Fleet, was: map<(Marker, nat), Group>, now: map<(Marker, nat), Group>)
    requires Midway(expected, f, was, now, NotifyDue)
    ensures SyncedFrom(expected, f, was, now, true) && SyncedFrom(expected, f, was, now, false)
  {
    hide Reaches, Selected, FilesInv, Coherent, Exact;
    var s, a := State(f, SyncDue, Selected(was)), State(f, NotifyDue, Selected(now));
    ReachesNext(expected, s, a, Notified, State(f, Idle, Selected(now)));
    ReachesNext(expected, s, a, Retried, State(f, SyncDue, Selected(now)));
  }

  /** Writing the nodes leaves the control planes' files current. */
  lemma SecondKeepsFirst(f: Fleet, mid: map<(Marker, nat), Group>, now: map<(Marker, nat), Group>, port: nat)
    requires OthersSame(mid, now, NodeGroup) && Current(f, mid, ControlPlaneGroup, port) && Current(f, now, NodeGroup, port)
    ensures BothCurrent(f, now, port)
  {
    hide Describes, InOrder, Enumerates, BootNics, HostsOfMarker;
    forall us, listed | Enumerates(us, HostsOfMarker(f, ControlPlaneGroup)) && BootNics(f, us, listed)
      ensures DescribedUpTo(f, now, ControlPlaneGroup, InOrder(listed), |listed|, port)
    {
    }
  }

  class ConfigSyncSchedules {
    const api: Api
    const dir: MatchboxDirectory
    const peerPort: nat
    ghost const expected: nat

    constructor (api: Api, dir: MatchboxDirectory, peerPort: nat, ghost expected: nat)
      ensures this.api == api && this.dir == dir && this.peerPort == peerPort && this.expected == expected
    {
      this.api, this.dir, this.peerPort, this.expected := api, dir, peerPort, expected;
    }

    /** One file: two queries for the etcd members, then a `dump`. */
    method WriteFile(m: Marker, sorted: seq<Nic>, i: nat, ghost f: Fleet) returns (failed: Option<Failure>, ghost g: Group)
      requires Valid(api.repo.db.committed) && f == View(api.repo.db.committed) && i < |sorted|
      modifies dir, api`failures
      ensures failed.None? ==> Dumped(old(dir.groups), dir.groups, (m, i), g) && g.selector == Lower(sorted[i].mac)
      ensures failed.None? ==> Asked(f, g, m, i, sorted[i], |sorted|, peerPort) && Says(f, g, m, i, sorted[i], |sorted|, peerPort)
      ensures (m, i) in old(dir.groups) && failed.None? && SameData(g, old(dir.groups)[(m, i)]) ==> dir.writes == old(dir.writes)
      ensures failed.Some? ==> dir.groups == old(dir.groups) && dir.writes == old(dir.writes)
      ensures api.reliable && IsLowerMac(Lower(sorted[i].mac)) ==> failed.None?
    {
      g := NO_FILE;
      hide View, Valid, SameData, IsLowerMac, GroupFor, Answer, Asked, Lower, SomeIps, Enumerates, ListedWithRole, Says;
      var cluster, us := api.GetIpList(EtcdMember);
      if cluster.Failed? { return Some(cluster.failure), g; }
      var members, vs := api.GetIpList(EtcdMember);
      if members.Failed? { return Some(members.failure), g; }
      IsAsked(f, m, i, sorted[i], cluster.value, members.value, |sorted|, peerPort);
      var group := GroupFor(m, i, sorted[i], cluster.value, members.value, |sorted|, peerPort);
      g := group;
      if !IsLowerMac(group.selector) { return Some(OtherFailure), g; }
      AskedSays(f, group, m, i, sorted[i], |sorted|, peerPort);
      var _ := dir.Dump((m, i), group);
      failed := None;
    }

    /** The files of a listing, in MAC order; k of them are written. */
    method WriteFiles(m: Marker, listed: seq<Nic>, ghost us: seq<string>, ghost f: Fleet) returns (failed: Option<Failure>, ghost k: nat)
      requires Valid(api.repo.db.committed) && f == View(api.repo.db.committed)
      requires Enumerates(us, HostsOfMarker(f, m)) && BootNics(f, us, listed)
      modifies dir, api`failures
      ensures SeriesAt(f, old(dir.groups), dir.groups, m, us, listed, k, peerPort)
      ensures failed.None? <==> k == |listed|
      ensures Settled(f, old(dir.groups), m, peerPort) ==> dir.writes == old(dir.writes)
      ensures api.reliable && MacsValid(f) ==> failed.None?
    {
      hide *;
      ghost var was := dir.groups;
      ViewCoherent(api.repo.db.committed);
      var sorted := InOrder(listed);
      SeriesStarts(f, was, m, us, listed, peerPort);
      k := 0;
      for i := 0 to |sorted|
        invariant k == i
        invariant SeriesAt(f, was, dir.groups, m, us, listed, i, peerPort)
        invariant Settled(f, was, m, peerPort) ==> dir.writes == old(dir.writes)
      {
        ghost var now := dir.groups;
        if MacsValid(f) { ListedMacValid(f, us, listed, i); }
        ghost var g;
        failed, g := WriteFile(m, sorted, i, f);
        if failed.Some? { return; }
        SeriesGrows(f, was, now, dir.groups, m, us, listed, i, g, peerPort);
        k := i + 1;
      }
      failed := None;
    }

    /** The files of one role: read, then written in MAC order. */
    method WriteSeries(m: Marker, ghost f: Fleet) returns (r: Tried<nat>, ghost p: Progress)
      requires Valid(api.repo.db.committed) && f == View(api.repo.db.committed)
      modifies dir, api`failures, api`queries
      ensures api.queries == old(api.queries) + multiset{RolesOfMarker(m)}
      ensures Progressed(f, Selected(old(dir.groups)), Selected(dir.groups), m, p)
      ensures r.Done? <==> p.Wrote? && p.k == |p.listed|
      ensures r.Done? || r.Raised?
      ensures r.Done? ==> r.value == |HostsOfMarker(f, m)|
      ensures r.Done? ==> Current(f, dir.groups, m, peerPort)
      ensures OthersSame(old(dir.groups), dir.groups, m)
      ensures Settled(f, old(dir.groups), m, peerPort) ==> dir.groups == old(dir.groups) && dir.writes == old(dir.writes)
      ensures api.reliable && Readable(f, m) ==> r.Done?
    {
      hide *;
      ghost var was := dir.groups;
      MarkerHosts(f, m);
      ReadableSays(f, m);
      var list, us := api.GetByRoles(RolesOfMarker(m));
      if list.Failed? {
        NoProgress(f, was, m);
        return Raised(list.failure), Unread;
      }
      CountedAll(f, HostsOfMarker(f, m), us, list.value);
      var failed, k := WriteFiles(m, list.value, us, f);
      SeriesSays(f, was, dir.groups, m, us, list.value, k, peerPort);
      p := Wrote(us, list.value, k);
      r := if failed.Some? then Raised(failed.value) else Done(|list.value|);
    }

    /** One try of `apply`: both roles in turn, then the notification. */
    method TryOnce(ghost f: Fleet) returns (r: Tried<nat>)
      requires Valid(api.repo.db.committed) && f == View(api.repo.db.committed)
      modifies dir, api`failures, api`queries
      ensures api.queries[CONTROL_PLANE_ROLES] == old(api.queries[CONTROL_PLANE_ROLES]) + 1
      ensures api.queries[NODE_ROLES] >= old(api.queries[NODE_ROLES])
      ensures SyncedFrom(expected, f, old(dir.groups), dir.groups, r.Done?)
      ensures r.Done? || r.Raised?
      ensures r.Done? ==> r.value == |ControlPlanes(f)| + |Nodes(f)|
      ensures r.Done? ==> BothCurrent(f, dir.groups, peerPort)
      ensures BothSettled(f, old(dir.groups), peerPort) ==> dir.groups == old(dir.groups) && dir.writes == old(dir.writes)
      ensures api.reliable && BothReadable(f) ==> r.Done?
    {
      hide *;
      ghost var was := dir.groups;
      RolesDiffer();
      BothSays(f, was, peerPort);
      var cps, p := WriteSeries(ControlPlaneGroup, f);
      ghost var mid := dir.groups;
      FirstSeries(expected, f, was, mid, p);
      if cps.Raised? { return cps; }
      var nodes, q := WriteSeries(NodeGroup, f);
      SecondSeries(expected, f, was, mid, dir.groups, p, q);
      if nodes.Raised? { return nodes; }
      SecondKeepsFirst(f, mid, dir.groups, peerPort);
      var sent := api.Notify();
      AfterNotify(expected, f, was, dir.groups);
      r := if sent.Failed? then Raised(sent.failure) else Done(cps.value + nodes.value);
    }

    /** `apply`: the same again after any exception but the last. */
    method Apply(nbTry: nat, ghost f: Fleet) returns (r: Tried<nat>)
      requires Valid(api.repo.db.committed) && f == View(api.repo.db.committed)
      modifies dir, api`failures, api`queries
      ensures r.Raised? ==> api.queries[CONTROL_PLANE_ROLES] == old(api.queries[CONTROL_PLANE_ROLES]) + nbTry
      ensures r.Done? ==> old(api.queries[CONTROL_PLANE_ROLES]) < api.queries[CONTROL_PLANE_ROLES] <= old(api.queries[CONTROL_PLANE_ROLES]) + nbTry
      ensures api.queries[NODE_ROLES] >= old(api.queries[NODE_ROLES])
      ensures SyncedFrom(expected, f, old(dir.groups), dir.groups, r.Done?)
      ensures r.NoTry? <==> nbTry == 0
      ensures r.Done? ==> r.value == |ControlPlanes(f)| + |Nodes(f)|
      ensures r.Done? ==> BothCurrent(f, dir.groups, peerPort)
      ensures BothSettled(f, old(dir.groups), peerPort) ==> dir.groups == old(dir.groups) && dir.writes == old(dir.writes)
      ensures api.reliable && BothReadable(f) && nbTry > 0 ==> r.Done?
    {
      hide *;
      ghost var was := dir.groups;
      NotSyncedYet(expected, f, was);
      r := NoTry;
      for i := 0 to nbTry
        invariant !r.Done? && (r.NoTry? <==> i == 0)
        invariant api.queries[CONTROL_PLANE_ROLES] == old(api.queries[CONTROL_PLANE_ROLES]) + i && api.queries[NODE_ROLES] >= old(api.queries[NODE_ROLES])
        invariant SyncedFrom(expected, f, was, dir.groups, false)
        invariant BothSettled(f, was, peerPort) ==> dir.groups == was && dir.writes == old(dir.writes)
        invariant api.reliable && BothReadable(f) ==> i == 0
      {
        ghost var now := dir.groups;
        r := TryOnce(f);
        SyncedOn(expected, f, was, now, dir.groups, r.Done?);
        if r.Done? { return; }
      }
    }
  }

  /** Where the writing of a series stands after i files. */
  ghost predicate SeriesAt(f: Fleet, was: map<(Marker, nat), Group>, now: map<(Marker, nat), Group>, m: Marker,
                           us: seq<string>, listed: seq<Nic>, i: nat, port: nat)
  {
    && Coherent(f) && Enumerates(us, HostsOfMarker(f, m)) && BootNics(f, us, listed) && i <= |listed|
    && Selected(now) == Written(Selected(was), m, InOrder(listed), i)
    && DescribedUpTo(f, now, m, InOrder(listed), i, port)
    && OthersSame(was, now, m)
    && (Settled(f, was, m, port) ==> now == was)
  }

  lemma SeriesStarts(f: Fleet, was: map<(Marker, nat), Group>, m: Marker, us: seq<string>, listed: seq<Nic>, port: nat)
    requires Coherent(f) && Enumerates(us, HostsOfMarker(f, m)) && BootNics(f, us, listed)
    ensures SeriesAt(f, was, was, m, us, listed, 0, port)
  {
    hide Coherent, Enumerates, BootNics, Selected, InOrder, Settled;
  }

  lemma SeriesSays(f: Fleet, was: map<(Marker, nat), Group>, now: map<(Marker, nat), Group>, m: Marker,
                   us: seq<string>, listed: seq<Nic>, i: nat, port: nat)
    requires SeriesAt(f, was, now, m, us, listed, i, port)
    ensures Progressed(f, Selected(was), Selected(now), m, Wrote(us, listed, i))
    ensures OthersSame(was, now, m) && (Settled(f, was, m, port) ==> now == was)
    ensures i == |listed| ==> Current(f, now, m, port)
    ensures Settled(f, was, m, port) && i < |listed| ==> (m, i) in now
  {
    hide Coherent, Enumerates, BootNics, Selected, InOrder, Settled, Current, OthersSame, DescribedUpTo, Written;
    if i == |listed| { WholeIsCurrent(f, now, m, us, listed, port); }
    if Settled(f, was, m, port) && i < |listed| {
      SettledSays(f, was, m, port);
      DescribedAt(f, was, m, InOrder(listed), port, i);
    }
  }

  lemma SettledSays(f: Fleet, groups: map<(Marker, nat), Group>, m: Marker, port: nat)
    requires Settled(f, groups, m, port)
    ensures AllAnswersAgree(f) && Current(f, groups, m, port)
  {}

  lemma SeriesGrows(f: Fleet, was: map<(Marker, nat), Group>, now: map<(Marker, nat), Group>, next: map<(Marker, nat), Group>, m: Marker,
                    us: seq<string>, listed: seq<Nic>, i: nat, g: Group, port: nat)
    requires SeriesAt(f, was, now, m, us, listed, i, port) && i < |listed|
    requires Dumped(now, next, (m, i), g) && g.selector == Lower(InOrder(listed)[i].mac)
    requires Asked(f, g, m, i, InOrder(listed)[i], |listed|, port)
    ensures SeriesAt(f, was, next, m, us, listed, i + 1, port)
    ensures Settled(f, was, m, port) ==> (m, i) in now && SameData(g, now[(m, i)])
  {
    hide Coherent, Enumerates, BootNics, Selected, InOrder, Settled, OthersSame, DescribedUpTo, Written, Dumped, Asked, SameData, Lower;
    FileIsStep(f, now, next, m, InOrder(listed), i, g, port);
    OthersStay(was, now, next, m);
    WrittenNext(Selected(was), m, InOrder(listed), i);
    if Settled(f, was, m, port) { SettledFile(f, was, next, m, us, listed, i, g, port); }
  }

  lemma NoProgress(f: Fleet, groups: map<(Marker, nat), Group>, m: Marker)
    ensures Progressed(f, Selected(groups), Selected(groups), m, Unread) && OthersSame(groups, groups, m)
  {}

  lemma FileIsStep(f: Fleet, was: map<(Marker, nat), Group>, now: map<(Marker, nat), Group>, m: Marker, sorted: seq<Nic>, i: nat, g: Group, port: nat)
    requires i < |sorted| && DescribedUpTo(f, was, m, sorted, i, port)
    requires Dumped(was, now, (m, i), g) && g.selector == Lower(sorted[i].mac) && Asked(f, g, m, i, sorted[i], |sorted|, port)
    ensures Selected(now) == Selected(was)[(m, i) := Lower(sorted[i].mac)]
    ensures DescribedUpTo(f, now, m, sorted, i + 1, port)
    ensures OthersSame(was, now, m)
  {
    var cluster, members :| Answer(f, cluster) && Answer(f, members) && g == GroupFor(m, i, sorted[i], cluster, members, |sorted|, port);
    hide Answer, GroupFor, DescribedUpTo, SameData, Selected, Lower;
    DumpedSelects(was, now, (m, i), g);
    DumpedDescribes(f, was, now, m, sorted, i, cluster, members, port);
  }

  /** Where all answers agree and the files are current, a file is left alone. */
  lemma SettledFile(f: Fleet, was: map<(Marker, nat), Group>, now: map<(Marker, nat), Group>, m: Marker,
                    us: seq<string>, listed: seq<Nic>, i: nat, g: Group, port: nat)
    requires Settled(f, was, m, port) && Enumerates(us, HostsOfMarker(f, m)) && BootNics(f, us, listed) && i < |listed|
    requires Dumped(was, now, (m, i), g) && Asked(f, g, m, i, InOrder(listed)[i], |listed|, port)
    ensures now == was && (m, i) in was && SameData(g, was[(m, i)])
  {
    DescribedAt(f, was, m, InOrder(listed), port, i);
    var n := InOrder(listed)[i];
    var cluster, members :| Answer(f, cluster) && Answer(f, members) && g == GroupFor(m, i, n, cluster, members, |listed|, port);
    hide Current, AllAnswersAgree, Answer, GroupFor, Describes, SameData, DescribedUpTo, Enumerates, BootNics;
    AgreeingData(f, was[(m, i)], m, i, n, |listed|, port, cluster, members);
  }
}