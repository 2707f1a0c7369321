/** The cached `/discovery` and `/scheduler` routes of `routes.py`: what they answer is
    what a fresh read of the database would, and when it is not. */
module ApiCache {
  import opened Prelude
  import opened Machines
  import opened Database
  import opened Queries
  import opened Scheduling
  import opened Discovery
  import opened TimedCache

  // ---------- GET /discovery, uncached ----------

  datatype MachineReport = MachineReport(uuid: string, bootMac: string, nics: seq<Nic>, disks: seq<Disk>)

  ghost function WithInterface(f: Fleet): set<string> {
    set u | u in f.hosts && f.hosts[u].nics != {}
  }

  ghost predicate Describes(h: Host, u: string, r: MachineReport) {
    && r.uuid == u && BootsBy(h, r.bootMac)
    && (forall n :: n in r.nics <==> n in h.nics) && multiset(r.disks) == h.disks
  }

  ghost predicate BootsBy(h: Host, mac: string) {
    exists n :: n in h.nics && n.asBoot && n.mac == mac
  }

  ghost predicate Lists(f: Fleet, us: seq<string>, l: seq<MachineReport>) {
    |l| == |us| && forall i :: 0 <= i < |us| ==> us[i] in f.hosts && Describes(f.hosts[us[i]], us[i], l[i])
  }

  /** l is an answer of `fetch_all_discovery`: every machine with an interface, in some order. */
  ghost predicate DiscoveryAnswer(f: Fleet, l: seq<MachineReport>) {
    exists us :: Enumerates(us, WithInterface(f)) && Lists(f, us, l)
  }

  lemma WithInterfaceIs(t: Tables, id: nat)
    requires UuidsUnique(t.machines) && id in t.machines
    ensures t.machines[id] in View(t).hosts && View(t).hosts[t.machines[id]] == HostAt(t, id)
    ensures t.machines[id] in WithInterface(View(t)) <==> HostAt(t, id).nics != {}
  {
    hide HostAt, View, UuidsUnique;
    ViewHost(t, id);
  }

  lemma WithInterfaceKnown(t: Tables)
    ensures forall u :: u in WithInterface(View(t)) ==> u in t.machines.Values
  {
    ViewKeys(t);
    hide View;
  }

  lemma ListsNothing(f: Fleet)
    ensures Lists(f, [], [])
  {}

  lemma ListsOneMore(f: Fleet, us: seq<string>, l: seq<MachineReport>, u: string, r: MachineReport)
    requires Lists(f, us, l) && u in f.hosts && Describes(f.hosts[u], u, r)
    ensures Lists(f, us + [u], l + [r])
  {
    hide Describes;
  }

  lemma ListsAll(f: Fleet, us: seq<string>, l: seq<MachineReport>)
    requires Enumerates(us, WithInterface(f)) && Lists(f, us, l)
    ensures DiscoveryAnswer(f, l) && AllHaveBoot(f, WithInterface(f))
  {
    forall u | u in WithInterface(f) ensures HasBoot(f.hosts[u]) {
      assert u in us;
      var i :| 0 <= i < |us| && us[i] == u;
      assert Describes(f.hosts[us[i]], us[i], l[i]);
    }
  }

  lemma EmptyNics(h: Host, rows: seq<Nic>)
    requires forall n :: n in rows <==> n in h.nics
    ensures rows == [] <==> h.nics == {}
  {
    if rows != [] { assert rows[0] in h.nics; }
    if h.nics != {} {
      var n :| n in h.nics;
      assert n in rows;
    }
  }

  lemma DescribedBy(t: Tables, id: nat, nics: seq<Nic>, disks: seq<Disk>, boot: Nic)
    requires (forall n :: n in nics <==> n in HostAt(t, id).nics) && multiset(disks) == Bag(At(t.disks, id))
    requires id in t.machines && HasBoot(HostAt(t, id)) && boot == BootNic(HostAt(t, id))
    ensures Describes(HostAt(t, id), t.machines[id], MachineReport(t.machines[id], boot.mac, nics, disks))
  {}

  lemma ValidOneBoot(t: Tables)
    requires Valid(t)
    ensures OneBootEach(t.interfaces) && UuidsUnique(t.machines)
  {}

  /** `fetch_all_discovery`; None where it raises because a machine with interfaces has no
      boot one. */
  method FetchAllDiscovery(t: Tables) returns (r: Option<seq<MachineReport>>)
    requires Valid(t)
    ensures r.Some? <==> AllHaveBoot(View(t), WithInterface(View(t)))
    ensures r.Some? ==> DiscoveryAnswer(View(t), r.value)
  {
    hide *;
    ValidOneBoot(t);
    ghost var f, s, us := View(t), WithInterface(View(t)), [];
    var ids := QueryMachines(t);
    var l: seq<MachineReport> := [];
    VisitedNone(t, ids, s);
    ListsNothing(f);
    for k := 0 to |ids|
      invariant Visited(t, ids, k, s, us) && Lists(f, us, l)
    {
      VisitedNext(t, ids, k, s, us);
      var id := ids[k];
      WithInterfaceIs(t, id);
      var nics := NicRows(t, id);
      EmptyNics(HostAt(t, id), nics);
      if nics != [] {
        var boot := BootInterface(t, id);
        if boot.None? {
          NoBootIn(f, s, t.machines[id]);
          return None;
        }
        var disks := RelatedRows(Database.At(t.disks, id));
        DescribedBy(t, id, nics, disks, boot.value);
        var report := MachineReport(t.machines[id], boot.value.mac, nics, disks);
        ListsOneMore(f, us, l, t.machines[id], report);
        l, us := l + [report], us + [t.machines[id]];
      }
    }
    WithInterfaceKnown(t);
    VisitedAll(t, ids, s, us);
    ListsAll(f, us, l);
    r := Some(l);
  }

  // ---------- what an answer says after reports ----------

  /** The entry of a discovery answer says what the report said. */
  ghost predicate Repeats(r: MachineReport, p: Post)
    requires p.Post?
  {
    && r.uuid == p.uuid && r.bootMac == p.bootMac
    && (forall n :: n in r.nics <==> ReportedRow(n, p))
    && multiset(r.disks) == (if p.disks.Some? then multiset(p.disks.value) else multiset{})
  }

  lemma AnswerAt(f: Fleet, l: seq<MachineReport>, u: string) returns (k: nat)
    requires DiscoveryAnswer(f, l) && u in WithInterface(f)
    ensures k < |l| && u in f.hosts && Describes(f.hosts[u], u, l[k])
  {
    hide Describes, WithInterface;
    var us :| Enumerates(us, WithInterface(f)) && Lists(f, us, l);
    assert u in us;
    k :| k < |us| && us[k] == u;
  }

  lemma DescribesReport(h: Host, r: MachineReport, p: Post)
    requires p.Post? && HasFactsOf(h, p) && Describes(h, p.uuid, r)
    ensures Repeats(r, p)
  {
    var n :| n in h.nics && n.asBoot && n.mac == r.bootMac;
    assert ReportedRow(n, p);
    hide PortsOf;
  }

  /** After any reports a discovery answer has, for each machine with interfaces, an entry
      that repeats the last accepted report column by column. */
  lemma AnswerRepeatsLastReport(f: Fleet, posts: seq<Post>, u: string, i: nat, l: seq<MachineReport>) returns (k: nat)
    requires LastAbout(f, posts, u, i) && posts[i].Post? && DiscoveryAnswer(DiscoverAll(f, posts), l) && u in WithInterface(DiscoverAll(f, posts))
    ensures k < |l| && Repeats(l[k], posts[i])
  {
    hide DiscoverAll, DiscoveryAnswer, WithInterface, Describes, HasFactsOf, Repeats, Acceptable;
    LastReportWins(f, posts, u, i);
    k := AnswerAt(DiscoverAll(f, posts), l, u);
    DescribesReport(DiscoverAll(f, posts).hosts[u], l[k], posts[i]);
  }

  // ---------- which requests an answer survives ----------

  /** Roles are not part of the discovery answer. */
  lemma ScheduleKeepsDiscovery(f: Fleet, mac: string, roles: seq<Role>, l: seq<MachineReport>)
    requires DiscoveryAnswer(f, l)
    ensures DiscoveryAnswer(Schedule(f, mac, roles), l)
  {
    var g := Schedule(f, mac, roles);
    assert forall u :: u in f.hosts ==> u in g.hosts && g.hosts[u].nics == f.hosts[u].nics && g.hosts[u].disks == f.hosts[u].disks;
    assert g.hosts.Keys == f.hosts.Keys;
    assert WithInterface(g) == WithInterface(f);
    var us :| Enumerates(us, WithInterface(f)) && Lists(f, us, l);
    hide Enumerates, WithInterface, Schedule;
    forall i | 0 <= i < |us| ensures us[i] in g.hosts && Describes(g.hosts[us[i]], us[i], l[i]) {
      assert Describes(f.hosts[us[i]], us[i], l[i]);
    }
    assert Lists(g, us, l);
  }

  /** The machine is scheduled and the report changes the MAC it boots from. */
  ghost predicate MovesBoot(f: Fleet, p: Post) {
    BootMoves(f, p) && p.uuid in Scheduled(f)
  }

  /** What an accepted report does to the machines that hold a role. */
  lemma ScheduledAfter(f: Fleet, p: Post)
    requires Acceptable(f, p)
    ensures Scheduled(Discover(f, p)) == Scheduled(f)
    ensures forall v :: v in Scheduled(f) && v != p.uuid ==> v in Discover(f, p).hosts && Discover(f, p).hosts[v] == f.hosts[v]
    ensures p.uuid in Discover(f, p).hosts && RolesHeld(Discover(f, p), p.uuid) == RolesHeld(f, p.uuid)
  {
    var g := Discover(f, p);
    forall u ensures u in Scheduled(g) <==> u in Scheduled(f) {
      DiscoverEffect(f, p, u);
    }
  }

  /** A listing of the schedules stays right over a report exactly if the report does not
      change the MAC a scheduled machine boots from. */
  lemma DiscoverKeepsSchedulesIff(f: Fleet, p: Post, m: map<string, seq<Role>>)
    requires Coherent(f) && SchedulesListed(f, Scheduled(f), m)
    ensures SchedulesListed(Discover(f, p), Scheduled(Discover(f, p)), m) <==> !MovesBoot(f, p)
  {
    if Acceptable(f, p) {
      ScheduledAfter(f, p);
      BootAfter(f, p);
      ScheduledHaveBoot(f, m);
      hide Acceptable, Discover, Coherent, Scheduled, HasBoot, SchedulesListed, BootsAs;
      if p.uuid !in Scheduled(f) {
        SameListed(f, Discover(f, p), Scheduled(f), m);
      } else if MovesBoot(f, p) {
        BootGone(f, Discover(f, p), p.uuid, m);
      } else {
        BootKept(f, Discover(f, p), p.uuid, m);
      }
    } else {
    }
  }

  lemma ScheduledHaveBoot(f: Fleet, m: map<string, seq<Role>>)
    requires SchedulesListed(f, Scheduled(f), m)
    ensures forall u :: u in Scheduled(f) ==> u in f.hosts && HasBoot(f.hosts[u])
  {}

  lemma SameListed(f: Fleet, g: Fleet, s: set<string>, m: map<string, seq<Role>>)
    requires SchedulesListed(f, s, m) && forall v :: v in s ==> v in g.hosts && v in f.hosts && g.hosts[v] == f.hosts[v]
    ensures SchedulesListed(g, s, m)
  {
    forall v, mac | v in s ensures BootsAs(g, v, mac) <==> BootsAs(f, v, mac) {}
    hide BootsAs, HasBoot;
  }

  lemma BootGone(f: Fleet, g: Fleet, u: string, m: map<string, seq<Role>>)
    requires Coherent(f) && SchedulesListed(f, Scheduled(f), m) && u in Scheduled(f) && u in g.hosts
    requires forall v :: v in Scheduled(f) && v != u ==> v in g.hosts && v in f.hosts && g.hosts[v] == f.hosts[v]
    requires u in f.hosts && HasBoot(f.hosts[u])
    requires !(HasBoot(g.hosts[u]) && BootNic(g.hosts[u]).mac == BootNic(f.hosts[u]).mac)
    ensures !SchedulesListed(g, Scheduled(f), m)
  {
    hide *;
    var b := BootNic(f.hosts[u]).mac;
    ListsBoot(f, Scheduled(f), u, m);
    ScheduledHaveBoot(f, m);
    forall v | v in Scheduled(f) ensures !BootsAs(g, v, b) {
      if v == u {
        NotBooting(g, u, b);
      } else {
        BootMacsDiffer(f, u, v);
        NotBooting(g, v, b);
      }
    }
    NobodyBoots(g, Scheduled(f), m, b);
  }

  lemma ListsBoot(f: Fleet, s: set<string>, u: string, m: map<string, seq<Role>>)
    requires SchedulesListed(f, s, m) && u in s && u in f.hosts && HasBoot(f.hosts[u])
    ensures BootNic(f.hosts[u]).mac in m
  {
    assert BootsAs(f, u, BootNic(f.hosts[u]).mac);
  }

  lemma NotBooting(g: Fleet, v: string, mac: string)
    requires v in g.hosts && !(HasBoot(g.hosts[v]) && BootNic(g.hosts[v]).mac == mac)
    ensures !BootsAs(g, v, mac)
  {}

  lemma NobodyBoots(g: Fleet, s: set<string>, m: map<string, seq<Role>>, mac: string)
    requires mac in m && forall v :: v in s ==> !BootsAs(g, v, mac)
    ensures !SchedulesListed(g, s, m)
  {
    hide BootsAs;
  }

  lemma BootKept(f: Fleet, g: Fleet, u: string, m: map<string, seq<Role>>)
    requires SchedulesListed(f, Scheduled(f), m) && u in Scheduled(f) && u in f.hosts && u in g.hosts && HasBoot(f.hosts[u])
    requires HasBoot(g.hosts[u]) && BootNic(g.hosts[u]).mac == BootNic(f.hosts[u]).mac && g.hosts[u].roles == f.hosts[u].roles
    requires forall v :: v in Scheduled(f) && v != u ==> v in g.hosts && g.hosts[v] == f.hosts[v]
    ensures SchedulesListed(g, Scheduled(f), m)
  {
    forall v, mac | v in Scheduled(f) ensures BootsAs(g, v, mac) <==> BootsAs(f, v, mac) {
      if v != u { assert g.hosts[v] == f.hosts[v]; }
    }
    hide BootsAs, HasBoot;
  }

  /** The report says of the machine's interfaces and disks what is already known. */
  ghost predicate RepeatsFacts(f: Fleet, p: Post)
    requires p.Post?
  {
    if p.uuid in WithInterface(f)
    then NicsOf(p.nics, p.bootMac) == f.hosts[p.uuid].nics && multiset(DisksOf(p)) == f.hosts[p.uuid].disks
    else NicsOf(p.nics, p.bootMac) == {}
  }

  function UuidsOf(l: seq<MachineReport>): (r: seq<string>)
    ensures |r| == |l| && forall i :: 0 <= i < |l| ==> r[i] == l[i].uuid
  {
    seq(|l|, i requires 0 <= i < |l| => l[i].uuid)
  }

  lemma ListedUuids(f: Fleet, us: seq<string>, l: seq<MachineReport>)
    requires Lists(f, us, l)
    ensures us == UuidsOf(l)
  {
    forall i | 0 <= i < |us| ensures us[i] == l[i].uuid {
      assert Describes(f.hosts[us[i]], us[i], l[i]);
    }
  }

  lemma AnswerLists(f: Fleet, l: seq<MachineReport>)
    ensures DiscoveryAnswer(f, l) <==> Enumerates(UuidsOf(l), WithInterface(f)) && Lists(f, UuidsOf(l), l)
  {
    hide Enumerates, WithInterface, Lists, UuidsOf;
    if DiscoveryAnswer(f, l) {
      var us :| Enumerates(us, WithInterface(f)) && Lists(f, us, l);
      ListedUuids(f, us, l);
    }
  }

  lemma DescribedAlike(h: Host, g: Host, u: string, r: MachineReport)
    requires Describes(h, u, r)
    ensures Describes(g, u, r) <==> g.nics == h.nics && g.disks == h.disks
  {
    if Describes(g, u, r) {
      assert forall n :: n in g.nics <==> n in h.nics;
    }
  }

  lemma StatedAfter(f: Fleet, p: Post)
    requires p.Post? && Acceptable(f, p)
    ensures var g := Discover(f, p);
      && p.uuid in g.hosts && g.hosts[p.uuid].nics == NicsOf(p.nics, p.bootMac) && g.hosts[p.uuid].disks == multiset(DisksOf(p))
      && g.hosts.Keys == f.hosts.Keys + {p.uuid} && forall u :: u in f.hosts && u != p.uuid ==> g.hosts[u] == f.hosts[u]
  {}

  /** A discovery answer stays right over an accepted report exactly if the report repeats
      what is known of the machine. */
  lemma DiscoverKeepsReportsIff(f: Fleet, p: Post, l: seq<MachineReport>)
    requires p.Post? && Acceptable(f, p) && DiscoveryAnswer(f, l)
    ensures DiscoveryAnswer(Discover(f, p), l) <==> RepeatsFacts(f, p)
  {
    hide DiscoveryAnswer, Acceptable, Discover, NicsOf, DisksOf, Describes;
    var u, g, us := p.uuid, Discover(f, p), UuidsOf(l);
    StatedAfter(f, p);
    AnswerLists(f, l);
    AnswerLists(g, l);
    assert WithInterface(g) - {u} == WithInterface(f) - {u};
    if u in us {
      var i :| 0 <= i < |us| && us[i] == u;
      DescribedAlike(f.hosts[u], g.hosts[u], u, l[i]);
      forall j | 0 <= j < |us| && j != i ensures us[j] != u {}
    }
    if RepeatsFacts(f, p) {
      assert WithInterface(g) == WithInterface(f);
    }
  }

  // ---------- the routes as steps ----------

  /** What the routes work on: the fleet and the two stored answers, expired or not. */
  datatype ApiState = ApiState(fleet: Fleet, reports: Option<seq<MachineReport>>, schedules: Option<map<string, seq<Role>>>)

  /** One request with its answer. `recorded` tells whether the machine's state could be
      written after the report was stored. */
  datatype Exchange =
    | GotDiscovery(reports: Option<seq<MachineReport>>)
    | PostedDiscovery(post: Post, recorded: bool)
    | GotScheduler(schedules: Option<map<string, seq<Role>>>)
    | PostedScheduler(req: ScheduleRequest)
    | Pruned(keepReports: bool, keepSchedules: bool)

  /** A stored answer may have expired at any time, and the cache may drop it. */
  ghost predicate Answers(s: ApiState, c: Exchange, t: ApiState) {
    match c
    case GotDiscovery(a) =>
      && t.fleet == s.fleet && t.schedules == s.schedules
      && (if a.None? then !AllHaveBoot(s.fleet, WithInterface(s.fleet)) && t.reports in {s.reports, None}
          else t.reports == a && ((a == s.reports && a.value != []) || DiscoveryAnswer(s.fleet, a.value)))
    case PostedDiscovery(p, recorded) =>
      t == ApiState(Discover(s.fleet, p), if Acceptable(s.fleet, p) && recorded then None else s.reports, s.schedules)
    case GotScheduler(a) =>
      && t.fleet == s.fleet && t.reports == s.reports
      && (if a.None? then !AllHaveBoot(s.fleet, Scheduled(s.fleet)) && t.schedules in {s.schedules, None}
          else t.schedules == a && (a == s.schedules || SchedulesListed(s.fleet, Scheduled(s.fleet), a.value)))
    case PostedScheduler(req) =>
      t == if req.Request? then ApiState(Schedule(s.fleet, req.mac, req.roles), s.reports, None) else s
    case Pruned(keepReports, keepSchedules) =>
      t == ApiState(s.fleet, if keepReports then s.reports else None, if keepSchedules then s.schedules else None)
  }

  /** The stored discovery answer is what a fresh read could answer. */
  ghost predicate ReportsRight(s: ApiState) {
    s.reports.Some? ==> DiscoveryAnswer(s.fleet, s.reports.value)
  }

  ghost predicate SchedulesRight(s: ApiState) {
    s.schedules.Some? ==> SchedulesListed(s.fleet, Scheduled(s.fleet), s.schedules.value)
  }

  /** An accepted report leaves its POST before the stored answer is dropped. */
  ghost predicate LeavesReports(s: ApiState, c: Exchange) {
    c.PostedDiscovery? && !c.recorded && Acceptable(s.fleet, c.post)
  }

  ghost predicate CallMovesBoot(s: ApiState, c: Exchange) {
    c.PostedDiscovery? && MovesBoot(s.fleet, c.post)
  }

  lemma CallKeepsReports(s: ApiState, c: Exchange, t: ApiState)
    requires Answers(s, c, t) && ReportsRight(s) && !LeavesReports(s, c)
    ensures ReportsRight(t) && (c.GotDiscovery? && c.reports.Some? ==> DiscoveryAnswer(t.fleet, c.reports.value))
  {
    if c.PostedScheduler? && c.req.Request? && s.reports.Some? {
      ScheduleKeepsDiscovery(s.fleet, c.req.mac, c.req.roles, s.reports.value);
    }
    if c.PostedDiscovery? && !Acceptable(s.fleet, c.post) {
    }
    hide DiscoveryAnswer, AllHaveBoot, WithInterface, Acceptable, Discover, Schedule, SchedulesListed, Scheduled;
  }

  lemma CallKeepsSchedules(s: ApiState, c: Exchange, t: ApiState)
    requires Answers(s, c, t) && Coherent(s.fleet) && SchedulesRight(s)
    ensures SchedulesRight(t) <==> s.schedules.None? || !CallMovesBoot(s, c)
    ensures c.GotScheduler? && c.schedules.Some? ==> SchedulesListed(t.fleet, Scheduled(t.fleet), c.schedules.value)
  {
    if c.PostedDiscovery? && s.schedules.Some? {
      DiscoverKeepsSchedulesIff(s.fleet, c.post, s.schedules.value);
    }
    hide DiscoveryAnswer, AllHaveBoot, WithInterface, Acceptable, Discover, Schedule, SchedulesListed, Scheduled, MovesBoot, Coherent;
  }

  lemma CallKeepsCoherent(s: ApiState, c: Exchange, t: ApiState)
    requires Answers(s, c, t) && Coherent(s.fleet)
    ensures Coherent(t.fleet)
  {
    if c.PostedDiscovery? {
      DiscoverKeepsCoherent(s.fleet, c.post);
    } else if c.PostedScheduler? && c.req.Request? {
      ScheduleKeepsCoherent(s.fleet, c.req.mac, c.req.roles);
    }
    hide DiscoveryAnswer, AllHaveBoot, WithInterface, Acceptable, Discover, Schedule, SchedulesListed, Scheduled, Coherent;
  }

  // ---------- any sequence of requests ----------

  ghost predicate Calls(ss: seq<ApiState>, cs: seq<Exchange>) {
    && |ss| == |cs| + 1 && Coherent(ss[0].fleet)
    && forall i :: 0 <= i < |cs| ==> Answers(ss[i], cs[i], ss[i + 1])
  }

  lemma CallsStart(ss: seq<ApiState>, cs: seq<Exchange>)
    requires Calls(ss, cs)
    ensures |ss| == |cs| + 1 && Coherent(ss[0].fleet)
  {}

  lemma CallAt(ss: seq<ApiState>, cs: seq<Exchange>, i: nat)
    requires Calls(ss, cs) && i < |cs|
    ensures |ss| == |cs| + 1 && Answers(ss[i], cs[i], ss[i + 1])
  {}

  lemma {:induction false} CallsCoherent(ss: seq<ApiState>, cs: seq<Exchange>, i: nat)
    requires Calls(ss, cs) && i <= |cs|
    ensures |ss| == |cs| + 1 && Coherent(ss[i].fleet)
  {
    hide *;
    CallsStart(ss, cs);
    if i > 0 {
      CallsCoherent(ss, cs, i - 1);
      CallAt(ss, cs, i - 1);
      CallKeepsCoherent(ss[i - 1], cs[i - 1], ss[i]);
    }
  }

  lemma {:induction false} ReportsStayRight(ss: seq<ApiState>, cs: seq<Exchange>, j: nat, i: nat)
    requires Calls(ss, cs) && j <= i <= |cs| && |ss| == |cs| + 1 && ReportsRight(ss[j])
    requires forall m :: j <= m < i ==> !LeavesReports(ss[m], cs[m])
    ensures ReportsRight(ss[i])
  {
    hide *;
    if i > j {
      ReportsStayRight(ss, cs, j, i - 1);
      CallAt(ss, cs, i - 1);
      CallKeepsReports(ss[i - 1], cs[i - 1], ss[i]);
    }
  }

  /** In any sequence of requests every answer of GET `/discovery` is a fresh one, from
      any state whose stored answer is right, as long as the POSTs of reports complete. */
  lemma DiscoveryAnswersAreFresh(ss: seq<ApiState>, cs: seq<Exchange>, j: nat, i: nat)
    requires Calls(ss, cs) && |ss| == |cs| + 1 && j <= i < |cs| && cs[i].GotDiscovery? && cs[i].reports.Some?
    requires ReportsRight(ss[j]) && forall m :: j <= m < i ==> !LeavesReports(ss[m], cs[m])
    ensures DiscoveryAnswer(ss[i].fleet, cs[i].reports.value)
  {
    hide *;
    ReportsStayRight(ss, cs, j, i);
    CallAt(ss, cs, i);
    GotIsNoPost(ss[i], cs[i], ss[i + 1]);
    CallKeepsReports(ss[i], cs[i], ss[i + 1]);
  }

  lemma GotIsNoPost(s: ApiState, c: Exchange, t: ApiState)
    requires Answers(s, c, t) && (c.GotDiscovery? || c.GotScheduler?)
    ensures !LeavesReports(s, c) && !CallMovesBoot(s, c) && t.fleet == s.fleet
  {
    hide DiscoveryAnswer, AllHaveBoot, WithInterface, SchedulesListed, Scheduled;
  }

  lemma {:induction false} SchedulesStayRight(ss: seq<ApiState>, cs: seq<Exchange>, j: nat, i: nat)
    requires Calls(ss, cs) && j <= i <= |cs| && |ss| == |cs| + 1 && SchedulesRight(ss[j])
    requires forall m :: j <= m < i ==> !CallMovesBoot(ss[m], cs[m])
    ensures SchedulesRight(ss[i])
  {
    hide *;
    if i > j {
      SchedulesStayRight(ss, cs, j, i - 1);
      CallAt(ss, cs, i - 1);
      CallsCoherent(ss, cs, i - 1);
      CallKeepsSchedules(ss[i - 1], cs[i - 1], ss[i]);
    }
  }

  /** Nothing is stored, as at the start and after every complete POST to `/scheduler`. */
  ghost predicate SchedulesDropped(ss: seq<ApiState>, cs: seq<Exchange>, j: nat) {
    j < |ss| && (ss[j].schedules.None? || (0 < j <= |cs| && cs[j - 1].PostedScheduler? && cs[j - 1].req.Request?))
  }

  /** In any sequence of requests every answer of GET `/scheduler` is right from each POST
      to `/scheduler` until the next report that changes the MAC a scheduled machine boots
      from. */
  lemma SchedulerAnswersAreFresh(ss: seq<ApiState>, cs: seq<Exchange>, j: nat, i: nat)
    requires Calls(ss, cs) && |ss| == |cs| + 1 && j <= i < |cs| && cs[i].GotScheduler? && cs[i].schedules.Some?
    requires SchedulesDropped(ss, cs, j) && forall m :: j <= m < i ==> !CallMovesBoot(ss[m], cs[m])
    ensures SchedulesListed(ss[i].fleet, Scheduled(ss[i].fleet), cs[i].schedules.value)
  {
    hide *;
    DroppedIsRight(ss, cs, j);
    SchedulesStayRight(ss, cs, j, i);
    CallAt(ss, cs, i);
    CallsCoherent(ss, cs, i);
    GotIsNoPost(ss[i], cs[i], ss[i + 1]);
    CallKeepsSchedules(ss[i], cs[i], ss[i + 1]);
  }

  lemma DroppedIsRight(ss: seq<ApiState>, cs: seq<Exchange>, j: nat)
    requires Calls(ss, cs) && j < |ss| && SchedulesDropped(ss, cs, j)
    ensures SchedulesRight(ss[j])
  {
    hide Coherent, Scheduled, SchedulesListed, Schedule, Discover, DiscoveryAnswer, AllHaveBoot, WithInterface;
    assert 0 < j <= |cs| ==> Answers(ss[j - 1], cs[j - 1], ss[j - 1 + 1]);
  }

  /** Such a report leaves a right stored answer wrong, and the next GET `/scheduler` may
      give it. */
  lemma OutdatedAnswer(s: ApiState, p: Post, recorded: bool, t: ApiState)
    requires Coherent(s.fleet) && s.schedules.Some? && SchedulesRight(s) && Answers(s, PostedDiscovery(p, recorded), t)
    ensures Answers(t, GotScheduler(s.schedules), t)
    ensures SchedulesListed(t.fleet, Scheduled(t.fleet), s.schedules.value) <==> !MovesBoot(s.fleet, p)
  {
    DiscoverKeepsSchedulesIff(s.fleet, p, s.schedules.value);
    hide DiscoveryAnswer, AllHaveBoot, WithInterface, Acceptable, Discover, Schedule, SchedulesListed, Scheduled, MovesBoot, Coherent;
  }

  // ---------- the routes ----------

  const DISCOVERY: string := "/discovery"
  const SCHEDULER: string := "/scheduler"

  class Routes {
    const discovery: MachineDiscoveryRepository
    const schedule: MachineScheduleRepository
    const reports: Cache<seq<MachineReport>>
    const schedules: Cache<map<string, seq<Role>>>
    /** When the stored answers were read. */
    ghost var reportsRead: real
    ghost var schedulesRead: real

    constructor (db: Connection)
      ensures discovery.db == db && schedule.db == db && fresh(reports) && fresh(schedules)
      ensures reports.entries == map[] && schedules.entries == map[] && Dated()
    {
      discovery := new MachineDiscoveryRepository(db);
      schedule := new MachineScheduleRepository(db);
      reports := new Cache();
      schedules := new Cache();
    }

    ghost predicate Wired()
      reads discovery.db
    {
      schedule.db == discovery.db && Valid(discovery.db.committed)
    }

    /** The stored answers expire 30 and 10 seconds after they were read, cut off to a whole second. */
    ghost predicate Dated()
      reads this, reports, schedules
    {
      && (DISCOVERY in reports.entries ==> reports.entries[DISCOVERY].expires == Some((reportsRead + 30.0).Floor))
      && (SCHEDULER in schedules.entries ==> schedules.entries[SCHEDULER].expires == Some((schedulesRead + 10.0).Floor))
    }

    ghost function Now(): ApiState
      reads discovery.db, reports, schedules
    {
      ApiState(View(discovery.db.committed),
               if DISCOVERY in reports.entries then Some(reports.entries[DISCOVERY].value) else None,
               if SCHEDULER in schedules.entries then Some(schedules.entries[SCHEDULER].value) else None)
    }

    /** GET `/discovery`; an empty list is never taken from the cache. None where the read raises. */
    method GetDiscovery(now: real) returns (r: Option<seq<MachineReport>>)
      requires Wired() && Dated()
      modifies this`reportsRead, reports
      ensures Dated() && (reportsRead == now || reportsRead == old(reportsRead)) && (r.Some? ==> reportsRead == now || now <= reportsRead + 30.0)
      ensures Answers(old(Now()), GotDiscovery(r), Now())
      ensures old(ReportsRight(Now())) ==> ReportsRight(Now()) && (r.Some? ==> DiscoveryAnswer(View(discovery.db.committed), r.value))
      ensures AllHaveBoot(View(discovery.db.committed), WithInterface(View(discovery.db.committed))) ==> r.Some?
    {
      hide View, Valid, DiscoveryAnswer, AllHaveBoot, WithInterface;
      var cached := reports.Get(DISCOVERY, now);
      if cached.Some? && cached.value != [] {
        return cached;
      }
      r := FetchAllDiscovery(discovery.db.committed);
      if r.Some? {
        reports.Set(DISCOVERY, r.value, 30, now);
        reportsRead := now;
      }
    }

    /** POST `/discovery`. Only a report that was taken and whose machine's state could be
        written drops the stored answer. */
    method PostDiscovery(post: Post, recorded: bool) returns (r: Result<bool, Rejection>)
      requires Wired() && Dated()
      modifies discovery.db, reports
      ensures Wired() && Dated() && Answers(old(Now()), PostedDiscovery(post, recorded), Now())
      ensures r.Ok? <==> Acceptable(old(View(discovery.db.committed)), post)
      ensures View(discovery.db.committed) == Discover(old(View(discovery.db.committed)), post)
      ensures old(ReportsRight(Now())) && (recorded || r.Err?) ==> ReportsRight(Now())
      ensures old(SchedulesRight(Now())) ==> (SchedulesRight(Now()) <==> Now().schedules.None? || !MovesBoot(old(View(discovery.db.committed)), post))
    {
      hide *;
      ghost var before := Now();
      NowIs();
      ViewCoherent(discovery.db.committed);
      r := discovery.Upsert(post);
      if r.Ok? && recorded {
        reports.Delete(DISCOVERY);
      }
      NowIs();
      ReportPosted(before, post, recorded, Now());
    }

    lemma NowIs()
      ensures Now().fleet == View(discovery.db.committed)
      ensures Now().reports == if DISCOVERY in reports.entries then Some(reports.entries[DISCOVERY].value) else None
      ensures Now().schedules == if SCHEDULER in schedules.entries then Some(schedules.entries[SCHEDULER].value) else None
      ensures Wired() <==> schedule.db == discovery.db && Valid(discovery.db.committed)
      ensures Dated() <==>
              && (DISCOVERY in reports.entries ==> reports.entries[DISCOVERY].expires == Some((reportsRead + 30.0).Floor))
              && (SCHEDULER in schedules.entries ==> schedules.entries[SCHEDULER].expires == Some((schedulesRead + 10.0).Floor))
    {}

    /** GET `/scheduler`. None where the read raises. */
    method GetScheduler(now: real) returns (r: Option<map<string, seq<Role>>>)
      requires Wired() && Dated()
      modifies this`schedulesRead, schedules
      ensures Dated() && (schedulesRead == now || schedulesRead == old(schedulesRead)) && (r.Some? ==> schedulesRead == now || now <= schedulesRead + 10.0)
      ensures Answers(old(Now()), GotScheduler(r), Now())
      ensures old(SchedulesRight(Now())) ==>
                SchedulesRight(Now()) && (r.Some? ==> SchedulesListed(View(discovery.db.committed), Scheduled(View(discovery.db.committed)), r.value))
      ensures AllHaveBoot(View(discovery.db.committed), Scheduled(View(discovery.db.committed))) ==> r.Some?
    {
      hide View, Valid, SchedulesListed, AllHaveBoot, Scheduled;
      r := schedules.Get(SCHEDULER, now);
      if r.None? {
        r := schedule.GetAllSchedules();
        if r.Some? {
          schedules.Set(SCHEDULER, r.value, 10, now);
          schedulesRead := now;
        }
      }
    }

    /** POST `/scheduler`; a request without the required keys raises and changes nothing. */
    method PostScheduler(req: ScheduleRequest) returns (ok: bool)
      requires Wired() && Dated()
      modifies discovery.db, schedules
      ensures Wired() && Dated() && Answers(old(Now()), PostedScheduler(req), Now())
      ensures ok <==> req.Request?
      ensures old(ReportsRight(Now())) ==> ReportsRight(Now())
      ensures ok || old(SchedulesRight(Now())) ==> SchedulesRight(Now())
    {
      hide *;
      ghost var before := Now();
      NowIs();
      ok := schedule.CreateSchedule(req);
      if ok {
        schedules.Delete(SCHEDULER);
      }
      NowIs();
      SchedulePosted(before, req, Now());
    }
  }

  lemma ReportPosted(s: ApiState, p: Post, recorded: bool, t: ApiState)
    requires Coherent(s.fleet) && t.fleet == Discover(s.fleet, p) && t.schedules == s.schedules
    requires t.reports == if Acceptable(s.fleet, p) && recorded then None else s.reports
    ensures Answers(s, PostedDiscovery(p, recorded), t)
    ensures ReportsRight(s) && (recorded || !Acceptable(s.fleet, p)) ==> ReportsRight(t)
    ensures SchedulesRight(s) ==> (SchedulesRight(t) <==> t.schedules.None? || !MovesBoot(s.fleet, p))
  {
    hide Coherent, Discover, Acceptable, MovesBoot, SchedulesListed, DiscoveryAnswer, Scheduled;
    var c := PostedDiscovery(p, recorded);
    if ReportsRight(s) && (recorded || !Acceptable(s.fleet, p)) { CallKeepsReports(s, c, t); }
    if SchedulesRight(s) { CallKeepsSchedules(s, c, t); }
  }

  lemma SchedulePosted(s: ApiState, req: ScheduleRequest, t: ApiState)
    requires t.fleet == (if req.Request? then Schedule(s.fleet, req.mac, req.roles) else s.fleet)
    requires t.reports == s.reports && t.schedules == if req.Request? then None else s.schedules
    ensures Answers(s, PostedScheduler(req), t)
    ensures ReportsRight(s) ==> ReportsRight(t)
    ensures req.Request? || SchedulesRight(s) ==> SchedulesRight(t)
  {
    hide Schedule, SchedulesListed, DiscoveryAnswer, Scheduled;
    if ReportsRight(s) { CallKeepsReports(s, PostedScheduler(req), t); }
  }
}
