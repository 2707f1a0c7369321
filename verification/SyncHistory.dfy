/** The group files over whole runs of the plan: how many there are, what a complete series
    stands for, how long it does, and what a notification and the sync gate add to that. */
module SyncHistory {
  import opened Prelude
  import opened Machines
  import opened Queries
  import opened Scheduling
  import opened PlanRun
  import opened PlanSafety
  import opened PlanHazards
  import opened PlanHistory
  import opened GroupFiles
  import TimedCache

  // ---------- never more files than machines ----------

  lemma ControlPlanePostGrows(f: Fleet, mac: string)
    ensures Grows(f, Schedule(f, mac, CONTROL_PLANE_ROLES))
  {
    ControlPlanePostAddsNoNode(f, mac);
    forall u | u in f.hosts && RunsControlPlane(f.hosts[u]) ensures RunsControlPlane(AddRoles(f.hosts[u], CONTROL_PLANE_ROLES)) {
      BundleValues(f.hosts[u]);
      assert EtcdMember in CONTROL_PLANE_ROLES && KubernetesControlPlane in CONTROL_PLANE_ROLES;
    }
    hide AddRoles, Owns, RunsControlPlane, Nodes;
  }

  lemma SparingPostGrows(f: Fleet, mac: string)
    requires forall u :: u in ControlPlanes(f) ==> !OwnedBy(f, u, mac)
    ensures Grows(f, Schedule(f, mac, NODE_ROLES))
  {
    SparedStay(f, mac);
    hide ControlPlanes, Owns;
  }

  /** While control planes are spared no machine leaves its role. */
  lemma SparingGrows(expected: nat, s: State, ev: Event, t: State)
    requires Step(expected, s, ev, t) && Spares(s, ev)
    ensures Grows(s.fleet, t.fleet)
  {
    hide ControlPlanes, Nodes, Schedule, Discover, AllHaveBoot, Enumerates, AnyNics, BootNics, Available, InOrder, Written, OwnedBy;
    if Committed(ev) && ev.PostNode? {
      SparingPostGrows(s.fleet, s.phase.todo[0]);
    } else if Committed(ev) {
      ControlPlanePostGrows(s.fleet, s.phase.todo[0]);
    } else if ev.Discovery? {
      ReportKeepsHoldings(s.fleet, ev.post);
    }
  }

  lemma StepKeepsFiles(expected: nat, s: State, ev: Event, t: State)
    requires FilesInv(s) && Step(expected, s, ev, t) && Spares(s, ev)
    ensures FilesInv(t)
  {
    if ev.SyncControlPlanes? {
      hide Fits, ControlPlanes, Enumerates, InOrder, Written;
      WritingFits(s.fleet, s.files, ControlPlaneGroup, ev.us, InOrder(ev.listed), ev.written, ControlPlaneGroup);
      WritingFits(s.fleet, s.files, ControlPlaneGroup, ev.us, InOrder(ev.listed), ev.written, NodeGroup);
    } else if ev.SyncNodes? {
      hide Fits, Nodes, Enumerates, InOrder, Written;
      WritingFits(s.fleet, s.files, NodeGroup, ev.us, InOrder(ev.listed), ev.written, ControlPlaneGroup);
      WritingFits(s.fleet, s.files, NodeGroup, ev.us, InOrder(ev.listed), ev.written, NodeGroup);
    } else {
      SparingGrows(expected, s, ev, t);
      hide Fits, Grows, Discover, Posted, Spares;
      GrowingFits(s.fleet, t.fleet, s.files, ControlPlaneGroup);
      GrowingFits(s.fleet, t.fleet, s.files, NodeGroup);
    }
  }

  lemma InitiallyFits()
    ensures FilesInv(INITIAL)
  {
    forall m: Marker ensures Fits(INITIAL.fleet, INITIAL.files, m) {
      assert Numbered(INITIAL.files, m, 0);
    }
  }

  lemma {:induction false} RunKeepsFiles(expected: nat, ss: seq<State>, evs: seq<Event>, k: nat)
    requires AnyRun(expected, ss, evs) && |ss| == |evs| + 1 && FilesInv(ss[0]) && k < |ss|
    requires forall i :: 0 <= i < k ==> Spares(ss[i], evs[i])
    ensures FilesInv(ss[k])
  {
    hide *;
    if k > 0 {
      RunKeepsFiles(expected, ss, evs, k - 1);
      AnyRunStep(expected, ss, evs, k - 1);
      StepKeepsFiles(expected, ss[k - 1], evs[k - 1], ss[k]);
    }
  }

  /** In every run whose node POSTs spare the control planes: files 0 to k - 1, and never
      more of them than machines of the role. */
  lemma FilesNeverOutnumber(expected: nat, ss: seq<State>, evs: seq<Event>, k: nat)
    requires AnyRun(expected, ss, evs) && |ss| == |evs| + 1 && ss[0] == INITIAL && k < |ss|
    requires forall i :: 0 <= i < k ==> Spares(ss[i], evs[i])
    ensures FilesInv(ss[k])
  {
    hide *;
    InitiallyFits();
    RunKeepsFiles(expected, ss, evs, k);
  }

  lemma NumberedOnce(files: Files, m: Marker, j: nat, k: nat)
    requires Numbered(files, m, j) && Numbered(files, m, k)
    ensures j == k
  {
    assert (m, j) in files <==> j < j;
    assert (m, k) in files <==> k < k;
    assert (m, j) in files <==> j < k;
    assert (m, k) in files <==> k < j;
  }

  /** A node POST that names a control plane takes it out of its role, and a series that
      was complete then has a file too many. */
  lemma UnsparedOutnumbers(expected: nat, s: State, ev: Event, t: State)
    requires Sound(s.fleet) && Step(expected, s, ev, t) && !Spares(s, ev)
    requires Numbered(s.files, ControlPlaneGroup, |ControlPlanes(s.fleet)|)
    ensures !FilesInv(t)
  {
    hide Coherent, WholeOrNode, NoRepeats, ControlPlanes, Nodes, Schedule, Numbered, OwnedBy;
    var mac := s.phase.todo[0];
    var u :| u in ControlPlanes(s.fleet) && OwnedBy(s.fleet, u, mac);
    NodePostAddsNone(s.fleet, mac);
    HitLeaves(s.fleet, u, mac);
    assert ControlPlanes(t.fleet) <= ControlPlanes(s.fleet) - {u};
    SubsetIsSmaller(ControlPlanes(t.fleet), ControlPlanes(s.fleet) - {u});
    if FilesInv(t) {
      var k := FitsWith(t.fleet, t.files, ControlPlaneGroup);
      NumberedOnce(s.files, ControlPlaneGroup, k, |ControlPlanes(s.fleet)|);
    }
  }

  lemma HitLeaves(f: Fleet, u: string, mac: string)
    requires OwnedBy(f, u, mac)
    ensures u !in ControlPlanes(Schedule(f, mac, NODE_ROLES))
  {
    NodeBundle(f.hosts[u]);
    hide AddRoles, RunsControlPlane;
  }

  /** What a call of the plan leads to from a safe start keeps the numbers. */
  lemma ReachesFits(expected: nat, s: State, t: State)
    requires Reaches(expected, s, t) && Inv(expected, s) && FilesInv(s)
    ensures FilesInv(t)
  {
    var ss, evs :| Run(expected, ss, evs) && ss[0] == s && ss[|ss| - 1] == t;
    hide *;
    RunIsAny(expected, ss, evs);
    forall i | 0 <= i < |evs| ensures Spares(ss[i], evs[i]) {
      OrderlySpares(expected, ss, evs, i);
    }
    RunKeepsFiles(expected, ss, evs, |ss| - 1);
  }

  lemma OrderlySpares(expected: nat, ss: seq<State>, evs: seq<Event>, i: nat)
    requires Run(expected, ss, evs) && Inv(expected, ss[0]) && |ss| == |evs| + 1 && i < |evs|
    ensures Spares(ss[i], evs[i])
  {
    hide *;
    OrderlyRunLands(expected, ss, evs, i);
    RunKeepsInv(expected, ss, evs, i);
    InvCoherent(expected, ss[i]);
    LandingDoesNoHarm(ss[i], evs[i]);
  }

  lemma InvCoherent(expected: nat, s: State)
    requires Inv(expected, s)
    ensures Coherent(s.fleet)
  {}

  // ---------- a complete series ----------

  ghost predicate WholeSync(ev: Event) {
    (ev.SyncControlPlanes? || ev.SyncNodes?) && ev.written == |ev.listed|
  }

  function MarkerOf(ev: Event): Marker {
    if ev.SyncControlPlanes? then ControlPlaneGroup else NodeGroup
  }

  /** The MACs in the order in which a sync works through them. */
  function MacsSynced(ev: Event): seq<string>
    requires ev.SyncControlPlanes? || ev.SyncNodes?
  {
    MacList(InOrder(ev.listed))
  }

  lemma SyncStep(expected: nat, s: State, ev: Event, t: State)
    requires Step(expected, s, ev, t) && WholeSync(ev)
    ensures t.fleet == s.fleet && |InOrder(ev.listed)| == |ev.listed|
    ensures t.files == Written(s.files, MarkerOf(ev), InOrder(ev.listed), |ev.listed|)
    ensures Enumerates(ev.us, HostsOfMarker(s.fleet, MarkerOf(ev))) && BootNics(s.fleet, ev.us, ev.listed)
  {
    hide ControlPlanes, Nodes, Enumerates, BootNics, InOrder, Written;
  }

  lemma WholeSyncIsExact(expected: nat, s: State, ev: Event, t: State)
    requires Coherent(s.fleet) && FilesInv(s) && Step(expected, s, ev, t) && WholeSync(ev)
    ensures Exact(t.fleet, t.files, MarkerOf(ev), MacsSynced(ev))
  {
    SyncStep(expected, s, ev, t);
    hide Coherent, Fits, Step, HostsOfMarker, Written, Exact, Enumerates, BootNics, InOrder;
    WholeSeries(s.fleet, s.files, MarkerOf(ev), ev.us, ev.listed);
  }

  /** A series that is written to the end is exactly that of the fleet, whatever files there
      were before: one file per machine of the role, in the order of the boot MACs. */
  lemma SeriesIsExact(expected: nat, ss: seq<State>, evs: seq<Event>, j: nat)
    requires AnyRun(expected, ss, evs) && |ss| == |evs| + 1 && ss[0] == INITIAL && j < |evs| && WholeSync(evs[j])
    requires forall i :: 0 <= i < j ==> Spares(ss[i], evs[i])
    ensures Exact(ss[j + 1].fleet, ss[j + 1].files, MarkerOf(evs[j]), MacsSynced(evs[j]))
  {
    hide Coherent, Step, FilesInv, Exact, AnyRun, ControlPlanes, InOrder, Spares;
    FilesNeverOutnumber(expected, ss, evs, j);
    EveryRunIsBounded(expected, ss, evs, j);
    AnyRunStep(expected, ss, evs, j);
    WholeSyncIsExact(expected, ss[j], evs[j], ss[j + 1]);
  }

  // ---------- how long a series stays exact ----------

  /** The report changes the MAC that a machine of the role boots from. */
  ghost predicate MovesMember(f: Fleet, p: Post, m: Marker) {
    BootMoves(f, p) && p.uuid in HostsOfMarker(f, m)
  }

  lemma SameMembers(f: Fleet, p: Post, m: Marker)
    ensures HostsOfMarker(Discover(f, p), m) == HostsOfMarker(f, m)
  {
    ReportKeepsHoldings(f, p);
    hide Discover, ControlPlanes, Nodes;
  }

  lemma OthersStay(f: Fleet, p: Post)
    ensures forall u :: u in f.hosts && !(Acceptable(f, p) && u == p.uuid) ==> u in Discover(f, p).hosts && Discover(f, p).hosts[u] == f.hosts[u]
  {
    forall u | u in f.hosts && !(Acceptable(f, p) && u == p.uuid) ensures u in Discover(f, p).hosts && Discover(f, p).hosts[u] == f.hosts[u] {
      DiscoverEffect(f, p, u);
    }
  }

  lemma SameBootMacs(f: Fleet, g: Fleet, s: set<string>)
    requires Bootable(f, s)
    requires forall u :: u in s ==> u in g.hosts && HasBoot(g.hosts[u]) && BootNic(g.hosts[u]).mac == BootNic(f.hosts[u]).mac
    ensures Bootable(g, s) && BootMacs(g, s) == BootMacs(f, s)
  {
    hide HasBoot;
  }

  lemma BootStays(f: Fleet, p: Post, m: Marker, u: string)
    requires Coherent(f) && !MovesMember(f, p, m) && u in HostsOfMarker(f, m) && u in f.hosts && HasBoot(f.hosts[u])
    ensures var g := Discover(f, p); u in g.hosts && HasBoot(g.hosts[u]) && BootNic(g.hosts[u]).mac == BootNic(f.hosts[u]).mac
  {
    OthersStay(f, p);
    if Acceptable(f, p) && u == p.uuid {
      BootAfter(f, p);
      DiscoverEffect(f, p, u);
    }
    hide Acceptable, Discover, HostsOfMarker, Coherent, HasBoot, MacsOf, Stated;
  }

  /** A report that changes no boot MAC of the role leaves its series exact. */
  lemma ReportKeepsSeries(f: Fleet, p: Post, files: Files, m: Marker, ms: seq<string>)
    requires Coherent(f) && Exact(f, files, m, ms) && !MovesMember(f, p, m)
    ensures Exact(Discover(f, p), files, m, ms)
  {
    SameMembers(f, p, m);
    var s := HostsOfMarker(f, m);
    hide Discover, HostsOfMarker, Coherent, HasBoot, MovesMember, BootMacs, SortedBy, Distinct, Elements, Numbered;
    forall u | u in s ensures u in Discover(f, p).hosts && HasBoot(Discover(f, p).hosts[u]) && BootNic(Discover(f, p).hosts[u]).mac == BootNic(f.hosts[u]).mac {
      BootStays(f, p, m, u);
    }
    SameBootMacs(f, Discover(f, p), s);
  }

  // ---------- a report that outdates a series ----------

  function LowerList(ms: seq<string>): (r: seq<string>)
    ensures |r| == |ms| && forall i :: 0 <= i < |ms| ==> r[i] == Lower(ms[i])
  {
    seq(|ms|, i requires 0 <= i < |ms| => Lower(ms[i]))
  }

  lemma LowerDropAt(xs: seq<string>, j: nat)
    requires j < |xs|
    ensures multiset(LowerList(xs)) == multiset(LowerList(DropAt(xs, j))) + multiset{Lower(xs[j])}
  {
    DropAtBag(LowerList(xs), j);
    assert DropAt(LowerList(xs), j) == LowerList(DropAt(xs, j));
  }

  lemma PlaceIn<T>(xs: seq<T>, x: T) returns (j: nat)
    requires x in xs
    ensures j < |xs| && xs[j] == x
  {
    j :| j < |xs| && xs[j] == x;
  }

  lemma {:induction false} LowerPermuted(xs: seq<string>, ys: seq<string>)
    requires multiset(xs) == multiset(ys)
    ensures multiset(LowerList(xs)) == multiset(LowerList(ys))
    decreases |xs|
  {
    hide *;
    SameLength(xs, ys);
    if xs != [] {
      assert xs[0] in multiset(ys);
      var j := PlaceIn(ys, xs[0]);
      DropAtBag(xs, 0);
      DropAtBag(ys, j);
      SameRest(multiset(DropAt(xs, 0)), multiset(DropAt(ys, j)), xs[0]);
      LowerPermuted(DropAt(xs, 0), DropAt(ys, j));
      LowerDropAt(xs, 0);
      LowerDropAt(ys, j);
    } else {
      assert ys == xs;
    }
  }

  lemma SameOther(b: multiset<string>, x: string, y: string)
    requires b + multiset{x} == b + multiset{y}
    ensures x == y
  {
    assert (b + multiset{x})[x] == b[x] + 1;
    assert (b + multiset{y})[x] == b[x] + (if x == y then 1 else 0);
  }

  /** Lists of different MACs that differ in one of them differ in lower case too, unless
      the two are the same up to case. */
  lemma OneExchanged(ms: seq<string>, ns: seq<string>, b: string, c: string)
    requires Distinct(ms) && Distinct(ns) && b in ms && c in ns && Elements(ms) - {b} == Elements(ns) - {c}
    requires LowerList(ms) == LowerList(ns)
    ensures Lower(b) == Lower(c)
  {
    hide Distinct, Elements, DropAt, LowerList, Lower;
    var i := PlaceIn(ms, b);
    var j := PlaceIn(ns, c);
    DistinctDropAt(ms, i);
    DistinctDropAt(ns, j);
    SameElements(DropAt(ms, i), DropAt(ns, j));
    LowerPermuted(DropAt(ms, i), DropAt(ns, j));
    LowerDropAt(ms, i);
    LowerDropAt(ns, j);
    SameOther(multiset(LowerList(DropAt(ms, i))), Lower(b), Lower(c));
  }

  lemma BootMacsBut(f: Fleet, s: set<string>, v: string)
    requires Coherent(f) && Bootable(f, s) && v in s
    ensures Bootable(f, s - {v}) && BootMacs(f, s) - {BootNic(f.hosts[v]).mac} == BootMacs(f, s - {v})
    ensures BootNic(f.hosts[v]).mac in BootMacs(f, s)
  {
    forall u | u in s && u != v ensures BootNic(f.hosts[u]).mac != BootNic(f.hosts[v]).mac {
      BootMacsDiffer(f, u, v);
    }
    hide Coherent, HasBoot;
  }

  /** The boot MACs but one are those of before. */
  lemma OtherBootMacs(f: Fleet, g: Fleet, s: set<string>, v: string)
    requires Coherent(f) && Coherent(g) && Bootable(f, s) && Bootable(g, s) && v in s
    requires forall u :: u in s && u != v ==> u in f.hosts && u in g.hosts && g.hosts[u] == f.hosts[u]
    ensures BootMacs(f, s) - {BootNic(f.hosts[v]).mac} == BootMacs(g, s) - {BootNic(g.hosts[v]).mac}
    ensures BootNic(f.hosts[v]).mac in BootMacs(f, s) && BootNic(g.hosts[v]).mac in BootMacs(g, s)
  {
    hide Coherent, HasBoot, BootMacs;
    BootMacsBut(f, s, v);
    BootMacsBut(g, s, v);
    SameBootMacs(f, g, s - {v});
  }

  lemma SameFilesSameLower(f: Fleet, g: Fleet, files: Files, m: Marker, ms: seq<string>, ns: seq<string>)
    requires Exact(f, files, m, ms) && Exact(g, files, m, ns)
    ensures LowerList(ms) == LowerList(ns)
  {
    hide Numbering, Numbered;
    NumberedOnce(files, m, |ms|, |ns|);
    forall i: nat | i < |ms| ensures LowerList(ms)[i] == LowerList(ns)[i] {
      assert (m, i) in files;
    }
  }

  lemma ExactSays(f: Fleet, files: Files, m: Marker, ms: seq<string>)
    requires Exact(f, files, m, ms)
    ensures Bootable(f, HostsOfMarker(f, m)) && Distinct(ms) && Elements(ms) == BootMacs(f, HostsOfMarker(f, m))
  {}

  /** The machine still boots, from the same MAC up to the case of letters. */
  ghost predicate SameUpToCase(f: Fleet, p: Post)
    requires p.Post?
  {
    p.bootMac in MacsOf(p.nics) && p.uuid in f.hosts && HasBoot(f.hosts[p.uuid]) && Lower(p.bootMac) == Lower(BootNic(f.hosts[p.uuid]).mac)
  }

  lemma MovedIs(f: Fleet, p: Post, m: Marker)
    requires Coherent(f) && MovesMember(f, p, m)
    ensures p.Post? && p.uuid in HostsOfMarker(f, m) && p.uuid in f.hosts && p.uuid in Discover(f, p).hosts
    ensures var h := Discover(f, p).hosts[p.uuid];
      && (HasBoot(h) <==> p.bootMac in MacsOf(p.nics)) && (HasBoot(h) ==> BootNic(h).mac == p.bootMac)
      && (HasBoot(h) && HasBoot(f.hosts[p.uuid]) ==> BootNic(h).mac != BootNic(f.hosts[p.uuid]).mac)
  {
    BootAfter(f, p);
    DiscoverEffect(f, p, p.uuid);
    hide Discover, HostsOfMarker, Coherent, HasBoot, MacsOf, Stated;
  }

  /** A report that changes the MAC a machine of the role boots from, by more than the case
      of letters, leaves the series outdated: no numbering of the fleet fits the files. */
  lemma MovedIsOutdated(f: Fleet, p: Post, files: Files, m: Marker, ms: seq<string>, ns: seq<string>)
    requires Coherent(f) && Exact(f, files, m, ms) && p.Post? && MovesMember(f, p, m) && !SameUpToCase(f, p)
    ensures !Exact(Discover(f, p), files, m, ns)
  {
    var s, g, v := HostsOfMarker(f, m), Discover(f, p), p.uuid;
    SameMembers(f, p, m);
    MovedIs(f, p, m);
    hide Exact, Discover, HostsOfMarker, Coherent, HasBoot, MovesMember, BootMacs, Distinct, Elements, LowerList, Lower, MacsOf;
    if Exact(g, files, m, ns) {
      DiscoverKeepsCoherent(f, p);
      OthersStay(f, p);
      ExactSays(f, files, m, ms);
      ExactSays(g, files, m, ns);
      OtherBootMacs(f, g, s, v);
      SameFilesSameLower(f, g, files, m, ms, ns);
      OneExchanged(ms, ns, BootNic(f.hosts[v]).mac, BootNic(g.hosts[v]).mac);
    }
  }

  lemma MovedAway(f: Fleet, p: Post, files: Files, m: Marker, ms: seq<string>)
    requires Coherent(f) && Exact(f, files, m, ms) && MovesMember(f, p, m)
    ensures !Exact(Discover(f, p), files, m, ms)
  {
    hide *;
    MovedIs(f, p, m);
    var s, g, v := HostsOfMarker(f, m), Discover(f, p), p.uuid;
    SameMembers(f, p, m);
    if Exact(g, files, m, ms) {
      DiscoverKeepsCoherent(f, p);
      OthersStay(f, p);
      ExactSays(f, files, m, ms);
      ExactSays(g, files, m, ms);
      OtherBootMacs(f, g, s, v);
      OneMissing(BootMacs(f, s), BootNic(f.hosts[v]).mac, BootNic(g.hosts[v]).mac);
    }
  }

  lemma OneMissing(a: set<string>, b: string, c: string)
    requires b in a && c in a && a - {b} == a - {c}
    ensures b == c
  {
    assert b in a - {c} <==> b in a - {b};
  }

  /** Over a report a series stays exact with its numbering if and only if the report does
      not change the MAC that a machine of the role boots from. */
  lemma ReportKeepsSeriesIff(f: Fleet, p: Post, files: Files, m: Marker, ms: seq<string>)
    requires Coherent(f) && Exact(f, files, m, ms)
    ensures Exact(Discover(f, p), files, m, ms) <==> !MovesMember(f, p, m)
  {
    hide *;
    if MovesMember(f, p, m) {
      MovedAway(f, p, files, m, ms);
    } else {
      ReportKeepsSeries(f, p, files, m, ms);
    }
  }

  // ---------- what a notification stands for ----------

  ghost predicate OnlyReports(evs: seq<Event>, from: int, to: int)
    requires 0 <= from && to <= |evs|
  {
    forall x :: from <= x < to ==> evs[x].Discovery?
  }

  /** The event number j wrote all control planes and since then only reports came. */
  ghost predicate ControlPlanesSynced(evs: seq<Event>, j: nat, i: nat) {
    j < i <= |evs| && evs[j].SyncControlPlanes? && WholeSync(evs[j]) && OnlyReports(evs, j + 1, i)
  }

  ghost predicate BothSynced(evs: seq<Event>, j: nat, k: nat, i: nat) {
    k < i <= |evs| && ControlPlanesSynced(evs, j, k) && evs[k].SyncNodes? && WholeSync(evs[k]) && OnlyReports(evs, k + 1, i)
  }

  lemma PhaseStep(expected: nat, s: State, ev: Event, t: State)
    requires Step(expected, s, ev, t)
    ensures t.phase == NodeSyncDue ==> (ev.Discovery? && s.phase == NodeSyncDue) || (ev.SyncControlPlanes? && WholeSync(ev))
    ensures t.phase == NotifyDue ==> (ev.Discovery? && s.phase == NotifyDue) || (ev.SyncNodes? && WholeSync(ev) && s.phase == NodeSyncDue)
    ensures ev.Notified? ==> s.phase == NotifyDue
  {
    hide Discover, Posted, ControlPlanes, Nodes, AllHaveBoot, Enumerates, AnyNics, BootNics, InOrder, Written, Available;
  }

  lemma {:induction false} PhaseHistory(expected: nat, ss: seq<State>, evs: seq<Event>, i: nat)
    requires AnyRun(expected, ss, evs) && |ss| == |evs| + 1 && ss[0].phase == Idle && i < |ss|
    ensures ss[i].phase == NodeSyncDue ==> exists j: nat :: ControlPlanesSynced(evs, j, i)
    ensures ss[i].phase == NotifyDue ==> exists j: nat, k: nat :: BothSynced(evs, j, k, i)
  {
    hide Step, WholeSync, AnyRun;
    if i > 0 {
      PhaseHistory(expected, ss, evs, i - 1);
      AnyRunStep(expected, ss, evs, i - 1);
      PhaseStep(expected, ss[i - 1], evs[i - 1], ss[i]);
      if ss[i].phase == NodeSyncDue {
        if evs[i - 1].Discovery? {
          var j: nat :| ControlPlanesSynced(evs, j, i - 1);
          assert ControlPlanesSynced(evs, j, i);
        } else {
          assert ControlPlanesSynced(evs, i - 1, i);
        }
      }
      if ss[i].phase == NotifyDue {
        if evs[i - 1].Discovery? {
          var j: nat, k: nat :| BothSynced(evs, j, k, i - 1);
          assert BothSynced(evs, j, k, i);
        } else {
          var j: nat :| ControlPlanesSynced(evs, j, i - 1);
          assert BothSynced(evs, j, i - 1, i);
        }
      }
    }
  }

  /** Whenever a notification is due, and so at every notification, in any run: a sync has
      written both series to the end, with nothing but reports since and in between. */
  lemma NotifiedAfterBoth(expected: nat, ss: seq<State>, evs: seq<Event>, i: nat)
    requires AnyRun(expected, ss, evs) && |ss| == |evs| + 1 && ss[0] == INITIAL && i < |evs|
    requires evs[i].Notified? || ss[i].phase == NotifyDue
    ensures exists j: nat, k: nat :: BothSynced(evs, j, k, i)
  {
    hide Step, BothSynced, AnyRun;
    PhaseHistory(expected, ss, evs, i);
    AnyRunStep(expected, ss, evs, i);
    PhaseStep(expected, ss[i], evs[i], ss[i + 1]);
  }

  /** No report in between changes a boot MAC of the role. */
  ghost predicate MembersKept(ss: seq<State>, evs: seq<Event>, m: Marker, from: int, to: int)
    requires |ss| == |evs| + 1 && 0 <= from && to <= |evs|
  {
    forall x :: from <= x < to && evs[x].Discovery? ==> !MovesMember(ss[x].fleet, evs[x].post, m)
  }

  lemma {:induction false} ReportsKeepSeries(expected: nat, ss: seq<State>, evs: seq<Event>, m: Marker, ms: seq<string>, from: nat, to: nat)
    requires AnyRun(expected, ss, evs) && |ss| == |evs| + 1 && ss[0] == INITIAL && from <= to <= |evs|
    requires Exact(ss[from].fleet, ss[from].files, m, ms) && OnlyReports(evs, from, to) && MembersKept(ss, evs, m, from, to)
    ensures Exact(ss[to].fleet, ss[to].files, m, ms)
  {
    hide AnyRun, Exact, MovesMember, Coherent, ControlPlanes;
    if from < to {
      ReportsKeepSeries(expected, ss, evs, m, ms, from, to - 1);
      AnyRunStep(expected, ss, evs, to - 1);
      EveryRunIsBounded(expected, ss, evs, to - 1);
      hide *;
      ReportKeepsSeries(ss[to - 1].fleet, evs[to - 1].post, ss[to - 1].files, m, ms);
    }
  }

  /** Both series are exactly those of the fleet at a notification, unless a report since a
      series was written changed the MAC that a machine of its role boots from. */
  lemma SyncIsExact(expected: nat, ss: seq<State>, evs: seq<Event>, j: nat, k: nat, i: nat)
    requires AnyRun(expected, ss, evs) && |ss| == |evs| + 1 && ss[0] == INITIAL && BothSynced(evs, j, k, i)
    requires forall x :: 0 <= x < k ==> Spares(ss[x], evs[x])
    ensures MembersKept(ss, evs, ControlPlaneGroup, j + 1, i) ==> Exact(ss[i].fleet, ss[i].files, ControlPlaneGroup, MacsSynced(evs[j]))
    ensures MembersKept(ss, evs, NodeGroup, k + 1, i) ==> Exact(ss[i].fleet, ss[i].files, NodeGroup, MacsSynced(evs[k]))
  {
    hide AnyRun, Exact, MovesMember, Spares, InOrder;
    SeriesIsExact(expected, ss, evs, j);
    SeriesIsExact(expected, ss, evs, k);
    if MembersKept(ss, evs, NodeGroup, k + 1, i) {
      ReportsKeepSeries(expected, ss, evs, NodeGroup, MacsSynced(evs[k]), k + 1, i);
    }
    if MembersKept(ss, evs, ControlPlaneGroup, j + 1, i) {
      ReportsKeepSeries(expected, ss, evs, ControlPlaneGroup, MacsSynced(evs[j]), j + 1, k);
      AnyRunStep(expected, ss, evs, k);
      NodesKeepControlPlanes(expected, ss[k], evs[k], ss[k + 1], MacsSynced(evs[j]));
      ReportsKeepSeries(expected, ss, evs, ControlPlaneGroup, MacsSynced(evs[j]), k + 1, i);
    }
  }

  lemma NodesKeepControlPlanes(expected: nat, s: State, ev: Event, t: State, ms: seq<string>)
    requires Step(expected, s, ev, t) && WholeSync(ev) && ev.SyncNodes? && Exact(s.fleet, s.files, ControlPlaneGroup, ms)
    ensures Exact(t.fleet, t.files, ControlPlaneGroup, ms)
  {
    SyncStep(expected, s, ev, t);
    hide Step, Exact, Written, Enumerates, BootNics, HostsOfMarker, InOrder;
    OtherSeries(s.fleet, s.files, NodeGroup, InOrder(ev.listed), |ev.listed|, ControlPlaneGroup, ms);
  }

  // ---------- what the sync gate lets through ----------

  /** The notifications the API has received are requests that the plan sent when one was
      due, whether or not their answers arrived: `sent` says at which events. */
  ghost predicate ReceivedFrom(notified: seq<real>, ss: seq<State>, evs: seq<Event>, stamps: seq<real>, sent: seq<nat>) {
    && |notified| == |sent| && |ss| == |evs| + 1 && |stamps| == |evs|
    && forall x :: 0 <= x < |sent| ==> sent[x] < |evs| && ss[sent[x]].phase == NotifyDue && notified[x] == stamps[sent[x]]
  }

  /** A forwarded `/ignition` request: at most ttl seconds before, a notification followed a
      sync that had written both series to the end, with nothing but reports in between. */
  lemma ForwardedAfterSync(expected: nat, ss: seq<State>, evs: seq<Event>, stamps: seq<real>, sent: seq<nat>, notified: seq<real>, ttl: int, now: real)
    returns (j: nat, k: nat, i: nat)
    requires AnyRun(expected, ss, evs) && |ss| == |evs| + 1 && ss[0] == INITIAL && ReceivedFrom(notified, ss, evs, stamps, sent)
    requires TimedCache.StillInSync(notified, ttl, now)
    ensures i < |evs| == |stamps| && (ttl != 0 ==> now <= stamps[i] + ttl as real)
    ensures BothSynced(evs, j, k, i)
  {
    hide AnyRun, BothSynced, TimedCache.StillInSync;
    TimedCache.InSyncWithin(notified, ttl, now);
    i := sent[|sent| - 1];
    NotifiedAfterBoth(expected, ss, evs, i);
    j, k :| BothSynced(evs, j, k, i);
  }
}
