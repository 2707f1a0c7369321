/** Runs of the plan in which reports come at any moment: what holds in all of them, and
    the exact conditions on the POSTs for what does not. */
module PlanHistory {
  import opened Prelude
  import opened Machines
  import opened Queries
  import opened Scheduling
  import opened PlanRun
  import opened PlanSafety
  import opened Placement
  import opened PlanHazards

  // ---------- what every run keeps ----------

  /** No (machine, role) row is repeated. */
  ghost predicate NoRepeats(f: Fleet) {
    forall u, r :: u in f.hosts ==> f.hosts[u].roles[r] <= 1
  }

  ghost predicate Loose(expected: nat, s: State) {
    var n := |ControlPlanes(s.fleet)|;
    && Coherent(s.fleet) && WholeOrNode(s.fleet) && NoRepeats(s.fleet)
    && (n == 0 || n < 2 * expected)
    && (s.phase == Short ==> n < expected)
    && (s.phase.PostingControlPlanes? ==> n + |s.phase.todo| < 2 * expected)
  }

  /** The part of that about the fleet alone. */
  ghost predicate Sound(f: Fleet) {
    Coherent(f) && WholeOrNode(f) && NoRepeats(f)
  }

  lemma BundleRepeatsNothing(h: Host, roles: seq<Role>)
    requires (forall r :: h.roles[r] <= 1) && (roles == CONTROL_PLANE_ROLES || roles == NODE_ROLES)
    ensures forall r :: AddRoles(h, roles).roles[r] <= 1
  {
    BundleValues(h);
  }

  lemma PostRepeatsNothing(f: Fleet, mac: string, roles: seq<Role>)
    requires NoRepeats(f) && (roles == CONTROL_PLANE_ROLES || roles == NODE_ROLES)
    ensures NoRepeats(Schedule(f, mac, roles))
  {
    forall u, r | u in f.hosts ensures Schedule(f, mac, roles).hosts[u].roles[r] <= 1 {
      BundleRepeatsNothing(f.hosts[u], roles);
    }
  }

  /** A node POST leaves its machine a node, and so no control plane. */
  lemma NodeBundle(h: Host)
    ensures KubernetesNode in AddRoles(h, NODE_ROLES).roles && !RunsControlPlane(AddRoles(h, NODE_ROLES))
  {
    BundleValues(h);
    assert KubernetesNode !in CONTROL_PLANE_ROLES;
  }

  lemma NodePostAddsNone(f: Fleet, mac: string)
    requires WholeOrNode(f)
    ensures WholeOrNode(Schedule(f, mac, NODE_ROLES))
    ensures ControlPlanes(Schedule(f, mac, NODE_ROLES)) <= ControlPlanes(f)
  {
    forall u | u in f.hosts && Owns(f.hosts[u], mac) ensures KubernetesNode in AddRoles(f.hosts[u], NODE_ROLES).roles
      && !RunsControlPlane(AddRoles(f.hosts[u], NODE_ROLES))
    {
      NodeBundle(f.hosts[u]);
    }
    hide AddRoles, Owns, HasNoRole, IsControlPlane, RunsControlPlane;
  }

  /** A POST of either bundle keeps the fleet sound and makes at most one control plane more. */
  lemma PostKeepsSound(f: Fleet, mac: string, roles: seq<Role>, o: Outcome)
    requires Sound(f) && (roles == CONTROL_PLANE_ROLES || roles == NODE_ROLES)
    ensures Sound(Posted(f, mac, roles, o))
    ensures |ControlPlanes(Posted(f, mac, roles, o))| <= |ControlPlanes(f)| + (if roles == CONTROL_PLANE_ROLES then 1 else 0)
  {
    hide Coherent, WholeOrNode, NoRepeats, Schedule, ControlPlanes;
    ScheduleKeepsCoherent(f, mac, roles);
    PostRepeatsNothing(f, mac, roles);
    if roles == CONTROL_PLANE_ROLES {
      PostCountsIff(f, mac);
    } else {
      NodePostAddsNone(f, mac);
      SubsetIsSmaller(ControlPlanes(Schedule(f, mac, roles)), ControlPlanes(f));
    }
  }

  lemma ReportKeepsHoldings(f: Fleet, p: Post)
    ensures var g := Discover(f, p);
      && ControlPlanes(g) == ControlPlanes(f) && Nodes(g) == Nodes(f)
      && (RolePartition(g) <==> RolePartition(f)) && (WholeOrNode(f) ==> WholeOrNode(g)) && (NoRepeats(f) ==> NoRepeats(g))
  {
    var g := Discover(f, p);
    forall u ensures RolesHeld(g, u) == RolesHeld(f, u) && (u in f.hosts ==> u in g.hosts) {
      DiscoverEffect(f, p, u);
    }
    hide *;
    SameHoldings(f, g);
  }

  lemma ReportKeepsSound(f: Fleet, p: Post)
    requires Sound(f)
    ensures Sound(Discover(f, p)) && ControlPlanes(Discover(f, p)) == ControlPlanes(f) && Nodes(Discover(f, p)) == Nodes(f)
    ensures RolePartition(Discover(f, p)) <==> RolePartition(f)
  {
    hide Discover, Coherent, WholeOrNode, NoRepeats, ControlPlanes, Nodes, RolePartition;
    DiscoverKeepsCoherent(f, p);
    ReportKeepsHoldings(f, p);
  }

  lemma SameHoldings(f: Fleet, g: Fleet)
    requires forall u :: RolesHeld(g, u) == RolesHeld(f, u) && (u in f.hosts ==> u in g.hosts)
    ensures ControlPlanes(g) == ControlPlanes(f) && Nodes(g) == Nodes(f)
    ensures (RolePartition(g) <==> RolePartition(f)) && (WholeOrNode(f) ==> WholeOrNode(g)) && (NoRepeats(f) ==> NoRepeats(g))
  {
    forall u | u in g.hosts
      ensures u in f.hosts ==> g.hosts[u].roles == f.hosts[u].roles
      ensures u !in f.hosts ==> HasNoRole(g.hosts[u]) && !RunsControlPlane(g.hosts[u]) && KubernetesNode !in g.hosts[u].roles
    {
      assert RolesHeld(g, u) == RolesHeld(f, u);
      Kinds(g.hosts[u]);
    }
    forall u | u in f.hosts
      ensures (HasNoRole(g.hosts[u]) <==> HasNoRole(f.hosts[u])) && (IsControlPlane(g.hosts[u]) <==> IsControlPlane(f.hosts[u]))
      ensures (IsNode(g.hosts[u]) <==> IsNode(f.hosts[u])) && (RunsControlPlane(g.hosts[u]) <==> RunsControlPlane(f.hosts[u]))
    {
      SameKind(f.hosts[u], g.hosts[u]);
    }
    assert NoRepeats(f) ==> NoRepeats(g) by { SameRepeats(f, g); }
    hide HasNoRole, IsControlPlane, IsNode, RunsControlPlane, RolesHeld, NoRepeats;
  }

  lemma SameRepeats(f: Fleet, g: Fleet)
    requires forall u :: u in f.hosts ==> u in g.hosts && g.hosts[u].roles == f.hosts[u].roles
    requires forall u :: u in g.hosts && u !in f.hosts ==> HasNoRole(g.hosts[u])
    ensures NoRepeats(f) ==> NoRepeats(g)
  {}

  lemma LooseReport(expected: nat, s: State, ev: Event, t: State)
    requires Loose(expected, s) && Step(expected, s, ev, t) && ev.Discovery?
    ensures Loose(expected, t)
  {
    hide Coherent, WholeOrNode, NoRepeats, ControlPlanes, Discover;
    ReportKeepsSound(s.fleet, ev.post);
  }

  lemma LoosePost(expected: nat, s: State, ev: Event, t: State)
    requires Loose(expected, s) && Step(expected, s, ev, t) && (ev.PostControlPlane? || ev.PostNode?)
    ensures Loose(expected, t)
  {
    hide Coherent, WholeOrNode, NoRepeats, ControlPlanes, Posted;
    PostKeepsSound(s.fleet, s.phase.todo[0], if ev.PostControlPlane? then CONTROL_PLANE_ROLES else NODE_ROLES, ev.outcome);
    NotSameBundle();
  }

  lemma NotSameBundle()
    ensures NODE_ROLES != CONTROL_PLANE_ROLES
  {
    assert |CONTROL_PLANE_ROLES| != |NODE_ROLES|;
  }

  lemma LooseQuiet(expected: nat, s: State, ev: Event, t: State)
    requires Loose(expected, s) && Step(expected, s, ev, t) && !ev.Discovery? && !ev.PostControlPlane? && !ev.PostNode?
    ensures Loose(expected, t)
  {
    hide Coherent, WholeOrNode, NoRepeats, ControlPlanes, Nodes, AllHaveBoot, Enumerates, AnyNics, BootNics, Available, InOrder, Written;
  }

  lemma LooseStep(expected: nat, s: State, ev: Event, t: State)
    requires Loose(expected, s) && Step(expected, s, ev, t)
    ensures Loose(expected, t)
  {
    hide *;
    if ev.Discovery? {
      LooseReport(expected, s, ev, t);
    } else if ev.PostControlPlane? || ev.PostNode? {
      LoosePost(expected, s, ev, t);
    } else {
      LooseQuiet(expected, s, ev, t);
    }
  }

  lemma AnyRunStep(expected: nat, ss: seq<State>, evs: seq<Event>, k: nat)
    requires AnyRun(expected, ss, evs) && k + 1 < |ss|
    ensures |evs| == |ss| - 1 && Step(expected, ss[k], evs[k], ss[k + 1])
  {}

  lemma InitiallyLoose(expected: nat)
    ensures Loose(expected, INITIAL) && RolePartition(INITIAL.fleet) && Nodes(INITIAL.fleet) == {}
    ensures WellAddressed(INITIAL.fleet) && WellKeyed(INITIAL.fleet)
  {
    assert ControlPlanes(EMPTY_FLEET) == {};
  }

  lemma {:induction false} AnyRunIsLoose(expected: nat, ss: seq<State>, evs: seq<Event>, k: nat)
    requires AnyRun(expected, ss, evs) && ss[0] == INITIAL && k < |ss|
    ensures Loose(expected, ss[k])
  {
    hide *;
    if k == 0 {
      InitiallyLoose(expected);
    } else {
      AnyRunIsLoose(expected, ss, evs, k - 1);
      AnyRunStep(expected, ss, evs, k - 1);
      LooseStep(expected, ss[k - 1], evs[k - 1], ss[k]);
    }
  }

  /** Every state of every run from an empty database, with reports at any moment, faults
      anywhere and any number of retries and restarts: at most 2 * expected - 1 control
      planes, no repeated row, and a coherent fleet. */
  lemma EveryRunIsBounded(expected: nat, ss: seq<State>, evs: seq<Event>, k: nat)
    requires AnyRun(expected, ss, evs) && ss[0] == INITIAL && k < |ss|
    ensures |ControlPlanes(ss[k].fleet)| == 0 || |ControlPlanes(ss[k].fleet)| <= 2 * expected - 1
    ensures forall u, r :: u in ss[k].fleet.hosts ==> ss[k].fleet.hosts[u].roles[r] <= 1
    ensures Coherent(ss[k].fleet)
  {
    hide Coherent, WholeOrNode, ControlPlanes, AnyRun;
    AnyRunIsLoose(expected, ss, evs, k);
  }

  // ---------- the partition of the roles ----------

  /** A POST that reaches the database, and what it carries. */
  ghost predicate Committed(ev: Event) {
    (ev.PostControlPlane? || ev.PostNode?) && ev.outcome != Lost(false)
  }

  ghost function BundleOf(ev: Event): seq<Role> {
    if ev.PostControlPlane? then CONTROL_PLANE_ROLES else NODE_ROLES
  }

  /** If the event is a POST that reaches the database, it is harmless when handled. */
  ghost predicate DoesNoHarm(s: State, ev: Event) {
    Committed(ev) ==> Todo(s.phase) != [] && Harmless(s.fleet, Todo(s.phase)[0], BundleOf(ev))
  }

  lemma PartitionStep(expected: nat, s: State, ev: Event, t: State)
    requires Loose(expected, s) && Step(expected, s, ev, t) && RolePartition(s.fleet)
    ensures RolePartition(t.fleet) <==> DoesNoHarm(s, ev)
  {
    hide Coherent, WholeOrNode, NoRepeats, ControlPlanes, RolePartition, Harmless, Schedule, Discover, AllHaveBoot, Enumerates, AnyNics,
         BootNics, Available, Nodes, InOrder, Written;
    if Committed(ev) {
      PostKeepsPartitionIff(s.fleet, s.phase.todo[0], BundleOf(ev));
    } else if ev.Discovery? {
      ReportKeepsSound(s.fleet, ev.post);
    }
  }

  lemma {:induction false} HarmlessIsPartitioned(expected: nat, ss: seq<State>, evs: seq<Event>, k: nat)
    requires AnyRun(expected, ss, evs) && ss[0] == INITIAL && k < |ss|
    requires forall i :: 0 <= i < k ==> DoesNoHarm(ss[i], evs[i])
    ensures RolePartition(ss[k].fleet)
  {
    hide *;
    if k == 0 {
      InitiallyLoose(expected);
    } else {
      HarmlessIsPartitioned(expected, ss, evs, k - 1);
      AnyRunIsLoose(expected, ss, evs, k - 1);
      AnyRunStep(expected, ss, evs, k - 1);
      PartitionStep(expected, ss[k - 1], evs[k - 1], ss[k]);
    }
  }

  /** In any run every state has each machine in exactly none, the control plane's or the
      node's bundle if and only if every POST that reached the database was harmless when
      it was handled: its machine, if any, held nothing or that very bundle. */
  lemma PartitionedIffHarmless(expected: nat, ss: seq<State>, evs: seq<Event>)
    requires AnyRun(expected, ss, evs) && ss[0] == INITIAL
    ensures (forall k :: 0 <= k < |ss| ==> RolePartition(ss[k].fleet)) <==> (forall i :: 0 <= i < |evs| ==> DoesNoHarm(ss[i], evs[i]))
  {
    assert |ss| == |evs| + 1;
    hide *;
    if forall i :: 0 <= i < |evs| ==> DoesNoHarm(ss[i], evs[i]) {
      forall k | 0 <= k < |ss| ensures RolePartition(ss[k].fleet) {
        HarmlessIsPartitioned(expected, ss, evs, k);
      }
    }
    if forall k :: 0 <= k < |ss| ==> RolePartition(ss[k].fleet) {
      forall i | 0 <= i < |evs| ensures DoesNoHarm(ss[i], evs[i]) {
        AnyRunIsLoose(expected, ss, evs, i);
        AnyRunStep(expected, ss, evs, i);
        PartitionStep(expected, ss[i], evs[i], ss[i + 1]);
      }
    }
  }

  // ---------- nodes only beside enough control planes ----------

  predicate InNodePhase(p: Phase) {
    p.NodesDue? || p.NodesCounted? || p.PostingNodes? || p.SyncDue? || p.NodeSyncDue? || p.NotifyDue?
  }

  /** A node POST that reaches the database does not name a control plane. */
  ghost predicate Spares(s: State, ev: Event) {
    Committed(ev) && ev.PostNode? && Todo(s.phase) != [] ==> forall u :: u in ControlPlanes(s.fleet) ==> !OwnedBy(s.fleet, u, Todo(s.phase)[0])
  }

  /** A try of control plane POSTs that ends normally ends with enough control planes. */
  ghost predicate EndsWithEnough(expected: nat, s: State, ev: Event) {
    ev.ControlPlanesPosted? ==> |ControlPlanes(s.fleet)| >= expected
  }

  ghost predicate EnoughInNodePhase(expected: nat, s: State) {
    InNodePhase(s.phase) ==> |ControlPlanes(s.fleet)| >= expected
  }

  ghost predicate NodesBesideEnough(expected: nat, s: State) {
    Nodes(s.fleet) != {} ==> |ControlPlanes(s.fleet)| >= expected
  }

  lemma SparedStay(f: Fleet, mac: string)
    requires forall u :: u in ControlPlanes(f) ==> !OwnedBy(f, u, mac)
    ensures ControlPlanes(f) <= ControlPlanes(Schedule(f, mac, NODE_ROLES))
  {
    hide AddRoles, RunsControlPlane;
  }

  lemma ControlPlanePostAddsNoNode(f: Fleet, mac: string)
    ensures Nodes(Schedule(f, mac, CONTROL_PLANE_ROLES)) == Nodes(f)
  {
    forall u | u in f.hosts ensures KubernetesNode in AddRoles(f.hosts[u], CONTROL_PLANE_ROLES).roles <==> KubernetesNode in f.hosts[u].roles {
      BundleValues(f.hosts[u]);
    }
    hide AddRoles, Owns;
  }

  /** While control planes are spared their number never falls, and only node POSTs make nodes. */
  lemma SparingStep(expected: nat, s: State, ev: Event, t: State)
    requires Loose(expected, s) && Step(expected, s, ev, t) && Spares(s, ev)
    ensures |ControlPlanes(s.fleet)| <= |ControlPlanes(t.fleet)|
    ensures !ev.PostNode? ==> Nodes(t.fleet) == Nodes(s.fleet)
  {
    hide Coherent, WholeOrNode, NoRepeats, ControlPlanes, Nodes, Schedule, Discover, AllHaveBoot, Enumerates, AnyNics, BootNics, Available,
         InOrder, Written, OwnedBy;
    if Committed(ev) && ev.PostNode? {
      SparedStay(s.fleet, s.phase.todo[0]);
      SubsetIsSmaller(ControlPlanes(s.fleet), ControlPlanes(t.fleet));
    } else if Committed(ev) {
      PostCountsIff(s.fleet, s.phase.todo[0]);
      ControlPlanePostAddsNoNode(s.fleet, s.phase.todo[0]);
    } else if ev.Discovery? {
      ReportKeepsSound(s.fleet, ev.post);
    }
  }

  lemma EnoughStep(expected: nat, s: State, ev: Event, t: State)
    requires Loose(expected, s) && Step(expected, s, ev, t) && Spares(s, ev) && EnoughInNodePhase(expected, s)
    ensures EndsWithEnough(expected, s, ev) ==> EnoughInNodePhase(expected, t)
    ensures EnoughInNodePhase(expected, t) ==> EndsWithEnough(expected, s, ev)
    ensures NodesBesideEnough(expected, s) ==> NodesBesideEnough(expected, t)
  {
    hide Step, Loose, Spares, ControlPlanes, Nodes, InNodePhase;
    SparingStep(expected, s, ev, t);
    NodePhaseEntered(expected, s, ev, t);
  }

  lemma NodePhaseEntered(expected: nat, s: State, ev: Event, t: State)
    requires Step(expected, s, ev, t)
    ensures InNodePhase(t.phase) ==>
              InNodePhase(s.phase) || ev.ControlPlanesPosted? || (ev.CountControlPlanes? && |ControlPlanes(s.fleet)| >= expected)
    ensures ev.ControlPlanesPosted? ==> InNodePhase(t.phase) && t.fleet == s.fleet
    ensures ev.PostNode? ==> InNodePhase(s.phase)
  {
    hide ControlPlanes, Nodes, Posted, Discover, AllHaveBoot, Enumerates, AnyNics, BootNics, Available, InOrder, Written;
  }

  lemma {:induction false} EnoughRun(expected: nat, ss: seq<State>, evs: seq<Event>, k: nat)
    requires AnyRun(expected, ss, evs) && ss[0] == INITIAL && k < |ss|
    requires forall i :: 0 <= i < |evs| ==> Spares(ss[i], evs[i])
    requires forall i :: 0 <= i < k ==> EndsWithEnough(expected, ss[i], evs[i])
    ensures EnoughInNodePhase(expected, ss[k]) && NodesBesideEnough(expected, ss[k])
  {
    AnyRunLength(expected, ss, evs);
    hide *;
    if k == 0 {
      InitiallyLoose(expected);
    } else {
      EnoughRun(expected, ss, evs, k - 1);
      AnyRunIsLoose(expected, ss, evs, k - 1);
      AnyRunStep(expected, ss, evs, k - 1);
      EnoughStep(expected, ss[k - 1], evs[k - 1], ss[k]);
    }
  }

  lemma AnyRunLength(expected: nat, ss: seq<State>, evs: seq<Event>)
    requires AnyRun(expected, ss, evs)
    ensures |ss| == |evs| + 1
  {}

  // ---------- the POSTs of a try that landed ----------

  /** A control plane POST that reaches the database while its MAC leads to an unscheduled machine. */
  ghost predicate LandedPost(s: State, ev: Event) {
    ev.PostControlPlane? && Committed(ev) && Todo(s.phase) != [] && Wanted(s.fleet, Todo(s.phase)[0])
  }

  /** How many of them there are from event number lo up to number hi. */
  ghost function Landings(ss: seq<State>, evs: seq<Event>, lo: nat, hi: nat): nat
    requires lo <= hi <= |evs| <= |ss|
  {
    if lo == hi then 0 else Landings(ss, evs, lo, hi - 1) + (if LandedPost(ss[hi - 1], evs[hi - 1]) then 1 else 0)
  }

  lemma LandingCounts(expected: nat, s: State, ev: Event, t: State)
    requires Loose(expected, s) && Step(expected, s, ev, t) && !(ev.PostNode? && Committed(ev))
    ensures |ControlPlanes(t.fleet)| == |ControlPlanes(s.fleet)| + (if LandedPost(s, ev) then 1 else 0)
  {
    hide Coherent, WholeOrNode, NoRepeats, ControlPlanes, Nodes, Schedule, Discover, AllHaveBoot, Enumerates, AnyNics, BootNics, Available,
         InOrder, Written, Wanted;
    if Committed(ev) {
      PostCountsIff(s.fleet, s.phase.todo[0]);
    } else if ev.Discovery? {
      ReportKeepsSound(s.fleet, ev.post);
    }
  }

  /** Between node POSTs the control planes are those there were and those that landed. */
  lemma {:induction false} LandingsAdd(expected: nat, ss: seq<State>, evs: seq<Event>, lo: nat, hi: nat)
    requires AnyRun(expected, ss, evs) && |ss| == |evs| + 1 && ss[0] == INITIAL && lo <= hi <= |evs|
    requires forall x :: lo <= x < hi ==> !(evs[x].PostNode? && Committed(evs[x]))
    ensures |ControlPlanes(ss[hi].fleet)| == |ControlPlanes(ss[lo].fleet)| + Landings(ss, evs, lo, hi)
    decreases hi
  {
    hide AnyRun, LandedPost, ControlPlanes, Committed;
    if lo < hi {
      LandingsAdd(expected, ss, evs, lo, hi - 1);
      AnyRunIsLoose(expected, ss, evs, hi - 1);
      AnyRunStep(expected, ss, evs, hi - 1);
      hide *;
      LandingCounts(expected, ss[hi - 1], evs[hi - 1], ss[hi]);
    }
  }

  /** A try fetched its MACs at event number j and since then only posted, with every answer
      arriving, while reports came. */
  ghost predicate TrySince(evs: seq<Event>, j: nat, i: nat) {
    && j < i <= |evs| && evs[j].FetchForControlPlanes?
    && forall x :: j < x < i ==> evs[x].Discovery? || (evs[x].PostControlPlane? && evs[x].outcome == Returned)
  }

  lemma PostingBefore(expected: nat, s: State, ev: Event, t: State)
    requires Step(expected, s, ev, t) && t.phase.PostingControlPlanes?
    ensures ev.FetchForControlPlanes? || (s.phase.PostingControlPlanes? && (ev.Discovery? || (ev.PostControlPlane? && ev.outcome == Returned)))
  {
    hide Discover, Posted, ControlPlanes, Nodes, AllHaveBoot, Enumerates, AnyNics, BootNics, InOrder, Written, Available;
  }

  lemma {:induction false} PostingSince(expected: nat, ss: seq<State>, evs: seq<Event>, i: nat) returns (j: nat)
    requires AnyRun(expected, ss, evs) && |ss| == |evs| + 1 && ss[0] == INITIAL && i <= |evs| && ss[i].phase.PostingControlPlanes?
    ensures TrySince(evs, j, i)
  {
    hide AnyRun, Step;
    AnyRunStep(expected, ss, evs, i - 1);
    PostingBefore(expected, ss[i - 1], evs[i - 1], ss[i]);
    if evs[i - 1].FetchForControlPlanes? {
      j := i - 1;
    } else {
      j := PostingSince(expected, ss, evs, i - 1);
    }
  }

  /** A try that ends normally has landed enough: the control planes there were at its fetch
      and its POSTs that landed are at least as many as expected. */
  ghost predicate TryLandsEnough(expected: nat, ss: seq<State>, evs: seq<Event>, i: nat)
    requires i < |evs| <= |ss|
  {
    evs[i].ControlPlanesPosted? ==>
      forall j: nat :: TrySince(evs, j, i) ==> |ControlPlanes(ss[j].fleet)| + Landings(ss, evs, j, i) >= expected
  }

  lemma TryCounts(expected: nat, ss: seq<State>, evs: seq<Event>, j: nat, i: nat)
    requires AnyRun(expected, ss, evs) && |ss| == |evs| + 1 && ss[0] == INITIAL && TrySince(evs, j, i)
    ensures |ControlPlanes(ss[i].fleet)| == |ControlPlanes(ss[j].fleet)| + Landings(ss, evs, j, i)
  {
    hide AnyRun, ControlPlanes, Landings, Committed;
    LandingsAdd(expected, ss, evs, j, i);
  }

  lemma TryEndsIff(expected: nat, ss: seq<State>, evs: seq<Event>, i: nat)
    requires AnyRun(expected, ss, evs) && |ss| == |evs| + 1 && ss[0] == INITIAL && i < |evs|
    ensures EndsWithEnough(expected, ss[i], evs[i]) <==> TryLandsEnough(expected, ss, evs, i)
  {
    hide AnyRun, ControlPlanes, Landings, Step;
    if evs[i].ControlPlanesPosted? {
      AnyRunStep(expected, ss, evs, i);
      var k := PostingSince(expected, ss, evs, i);
      forall j: nat | TrySince(evs, j, i) ensures |ControlPlanes(ss[i].fleet)| == |ControlPlanes(ss[j].fleet)| + Landings(ss, evs, j, i) {
        TryCounts(expected, ss, evs, j, i);
      }
      assert TrySince(evs, k, i);
    }
  }

  /** In any run whose node POSTs spare the control planes, the plan is never busy with
      nodes or files beside too few control planes if and only if every try that ends
      normally has landed enough; and then a node never stands beside too few. */
  lemma EnoughIffTriesLand(expected: nat, ss: seq<State>, evs: seq<Event>)
    requires AnyRun(expected, ss, evs) && |ss| == |evs| + 1 && ss[0] == INITIAL
    requires forall i :: 0 <= i < |evs| ==> Spares(ss[i], evs[i])
    ensures (forall k :: 0 <= k < |ss| ==> EnoughInNodePhase(expected, ss[k])) <==> (forall i :: 0 <= i < |evs| ==> TryLandsEnough(expected, ss, evs, i))
    ensures (forall i :: 0 <= i < |evs| ==> TryLandsEnough(expected, ss, evs, i)) ==> forall k :: 0 <= k < |ss| ==> NodesBesideEnough(expected, ss[k])
  {
    hide *;
    forall i | 0 <= i < |evs| ensures EndsWithEnough(expected, ss[i], evs[i]) <==> TryLandsEnough(expected, ss, evs, i) {
      TryEndsIff(expected, ss, evs, i);
    }
    if forall i :: 0 <= i < |evs| ==> TryLandsEnough(expected, ss, evs, i) {
      forall k | 0 <= k < |ss| ensures EnoughInNodePhase(expected, ss[k]) && NodesBesideEnough(expected, ss[k]) {
        EnoughRun(expected, ss, evs, k);
      }
    }
    if forall k :: 0 <= k < |ss| ==> EnoughInNodePhase(expected, ss[k]) {
      forall i | 0 <= i < |evs| ensures TryLandsEnough(expected, ss, evs, i) {
        AnyRunIsLoose(expected, ss, evs, i);
        AnyRunStep(expected, ss, evs, i);
        EnoughStep(expected, ss[i], evs[i], ss[i + 1]);
      }
    }
  }

  /** A try that ends short always can go wrong: with a free machine, three requests later,
      without a fault or a report, a node stands beside too few control planes. */
  lemma ShortTryGoesWrong(expected: nat, s: State) returns (ss: seq<State>, evs: seq<Event>)
    requires s.phase == NodesDue && |ControlPlanes(s.fleet)| < expected && Available(s.fleet) != {}
    requires Sound(s.fleet) && AllHaveBoot(s.fleet, Nodes(s.fleet))
    ensures AnyRun(expected, ss, evs) && ss[0] == s && forall i :: 0 <= i < |evs| ==> NoFault(evs[i]) && !evs[i].Discovery?
    ensures !NodesBesideEnough(expected, ss[|ss| - 1])
  {
    hide Step, AnyRun, Coherent, WholeOrNode, NoRepeats, ControlPlanes, Nodes, Available, AllHaveBoot, Enumerates, AnyNics, InOrder, Schedule;
    var us, listed := SomeListing(s.fleet);
    var macs := MacList(InOrder(listed));
    assert |Available(s.fleet)| > 0;
    var counted, posting := s.(phase := NodesCounted), s.(phase := PostingNodes(macs));
    var done := State(Schedule(s.fleet, macs[0], NODE_ROLES), PostingNodes(macs[1..]), s.files);
    var ev := PostNode(Returned, PostingNodes(macs[1..]));
    ShortSteps(expected, s, us, listed, macs, counted, posting, done, ev);
    NodePostAddsNone(s.fleet, macs[0]);
    SubsetIsSmaller(ControlPlanes(done.fleet), ControlPlanes(s.fleet));
    FirstIsNode(s.fleet, us, listed);
    ss, evs := [s, counted, posting, done], [CountNodes, FetchForNodes(us, listed), ev];
    ThreeSteps(expected, s, counted, posting, done, CountNodes, FetchForNodes(us, listed), ev);
  }

  lemma ShortSteps(expected: nat, s: State, us: seq<string>, listed: seq<Nic>, macs: seq<string>, counted: State, posting: State, done: State, ev: Event)
    requires s.phase == NodesDue && AllHaveBoot(s.fleet, Nodes(s.fleet)) && Enumerates(us, Available(s.fleet)) && AnyNics(s.fleet, us, listed)
    requires macs == MacList(InOrder(listed)) && macs != [] && ev == PostNode(Returned, PostingNodes(macs[1..]))
    requires counted == s.(phase := NodesCounted) && posting == s.(phase := PostingNodes(macs))
    requires done == State(Schedule(s.fleet, macs[0], NODE_ROLES), PostingNodes(macs[1..]), s.files)
    ensures Step(expected, s, CountNodes, counted) && Step(expected, counted, FetchForNodes(us, listed), posting) && Step(expected, posting, ev, done)
  {
    hide AllHaveBoot, Nodes, Enumerates, AnyNics, Available, InOrder, Schedule;
  }

  lemma ThreeSteps(expected: nat, a: State, b: State, c: State, d: State, x: Event, y: Event, z: Event)
    requires Step(expected, a, x, b) && Step(expected, b, y, c) && Step(expected, c, z, d)
    requires x == CountNodes && y.FetchForNodes? && z.PostNode? && z.outcome == Returned
    ensures AnyRun(expected, [a, b, c, d], [x, y, z])
    ensures forall i :: 0 <= i < 3 ==> NoFault([x, y, z][i]) && ![x, y, z][i].Discovery?
  {
    hide Step;
  }

  lemma FirstIsNode(f: Fleet, us: seq<string>, listed: seq<Nic>)
    requires Coherent(f) && Enumerates(us, Available(f)) && AnyNics(f, us, listed) && listed != []
    ensures Nodes(Schedule(f, MacList(InOrder(listed))[0], NODE_ROLES)) != {}
  {
    InOrderPermutes(listed);
    var a := OriginOf(listed, InOrder(listed), 0);
    var mac := MacList(InOrder(listed))[0];
    assert Owns(f.hosts[us[a]], mac);
    NodeBundle(f.hosts[us[a]]);
    assert us[a] in Nodes(Schedule(f, mac, NODE_ROLES));
  }

  // ---------- POSTs that lead to unscheduled machines ----------

  /** If the event is a POST that reaches the database, its MAC leads to an unscheduled
      machine when it is handled. */
  ghost predicate Lands(s: State, ev: Event) {
    Committed(ev) ==> Todo(s.phase) != [] && Wanted(s.fleet, Todo(s.phase)[0])
  }

  /** The control planes there are and those still to be posted are enough. */
  ghost predicate TryOnCourse(expected: nat, s: State) {
    s.phase.PostingControlPlanes? ==> |ControlPlanes(s.fleet)| + |s.phase.todo| >= expected
  }

  lemma LandingDoesNoHarm(s: State, ev: Event)
    requires Coherent(s.fleet) && Lands(s, ev)
    ensures DoesNoHarm(s, ev) && Spares(s, ev)
  {
    if Committed(ev) {
      var u := TheOwner(s.fleet, Todo(s.phase)[0]);
      Kinds(s.fleet.hosts[u]);
      hide Coherent, Wanted, OwnedBy;
    }
  }

  lemma LandingStep(expected: nat, s: State, ev: Event, t: State)
    requires Loose(expected, s) && Step(expected, s, ev, t) && Lands(s, ev) && TryOnCourse(expected, s)
    ensures TryOnCourse(expected, t) && EndsWithEnough(expected, s, ev)
  {
    hide Coherent, WholeOrNode, NoRepeats, ControlPlanes, Nodes, Schedule, Discover, AllHaveBoot, Enumerates, AnyNics, BootNics, Available,
         InOrder, Written, Wanted;
    if ev.PostControlPlane? && ev.outcome == Returned {
      PostCountsIff(s.fleet, s.phase.todo[0]);
    } else if ev.Discovery? {
      ReportKeepsSound(s.fleet, ev.post);
    }
  }

  lemma {:induction false} LandingRun(expected: nat, ss: seq<State>, evs: seq<Event>, k: nat)
    requires AnyRun(expected, ss, evs) && ss[0] == INITIAL && k < |ss|
    requires forall i :: 0 <= i < |evs| ==> Lands(ss[i], evs[i])
    ensures TryOnCourse(expected, ss[k])
    ensures forall i :: 0 <= i < k ==> EndsWithEnough(expected, ss[i], evs[i])
  {
    hide *;
    AnyRunLength(expected, ss, evs);
    if k == 0 {
      InitiallyOnCourse(expected);
    } else {
      LandingRun(expected, ss, evs, k - 1);
      AnyRunIsLoose(expected, ss, evs, k - 1);
      AnyRunStep(expected, ss, evs, k - 1);
      LandingStep(expected, ss[k - 1], evs[k - 1], ss[k]);
    }
  }

  lemma InitiallyOnCourse(expected: nat)
    ensures TryOnCourse(expected, INITIAL)
  {}

  /** In any run whose POSTs lead to unscheduled machines when they are handled, the roles
      stay partitioned and a node stands only beside enough control planes. */
  lemma LandingRunIsSafe(expected: nat, ss: seq<State>, evs: seq<Event>, k: nat)
    requires AnyRun(expected, ss, evs) && ss[0] == INITIAL && k < |ss|
    requires forall i :: 0 <= i < |evs| ==> Lands(ss[i], evs[i])
    ensures RolePartition(ss[k].fleet) && NodesBesideEnough(expected, ss[k]) && EnoughInNodePhase(expected, ss[k])
  {
    AnyRunLength(expected, ss, evs);
    hide *;
    forall i | 0 <= i < |evs| ensures DoesNoHarm(ss[i], evs[i]) && Spares(ss[i], evs[i]) {
      EveryRunIsBounded(expected, ss, evs, i);
      LandingDoesNoHarm(ss[i], evs[i]);
    }
    LandingRun(expected, ss, evs, k);
    HarmlessIsPartitioned(expected, ss, evs, k);
    EnoughRun(expected, ss, evs, k);
  }

  /** A run with orderly reports is one whose POSTs land. */
  lemma OrderlyRunLands(expected: nat, ss: seq<State>, evs: seq<Event>, i: nat)
    requires Run(expected, ss, evs) && Inv(expected, ss[0]) && i < |evs|
    ensures AnyRun(expected, ss, evs) && Lands(ss[i], evs[i])
  {
    RunIsAny(expected, ss, evs);
    hide *;
    RunKeepsInv(expected, ss, evs, i);
    RunStep(expected, ss, evs, i);
    InvLands(expected, ss[i], evs[i], ss[i + 1]);
  }

  lemma RunIsAny(expected: nat, ss: seq<State>, evs: seq<Event>)
    requires Run(expected, ss, evs)
    ensures AnyRun(expected, ss, evs)
  {
    hide Step, Orderly;
  }

  lemma InvLands(expected: nat, s: State, ev: Event, t: State)
    requires Inv(expected, s) && Step(expected, s, ev, t)
    ensures Lands(s, ev)
  {
    hide Coherent, RolePartition, ControlPlanes, Nodes, Posted, Discover, AllHaveBoot, Enumerates, AnyNics, BootNics, Available, InOrder, Written, Wanted;
  }

  // ---------- runs without faults ----------

  /** No POST is lost and the process does not stop while posting control planes. */
  ghost predicate Faultless(s: State, ev: Event) {
    && (ev.PostControlPlane? ==> ev.outcome == Returned)
    && (ev.GiveUp? ==> !s.phase.PostingControlPlanes?)
  }

  ghost predicate Whole(expected: nat, s: State) {
    var n := |ControlPlanes(s.fleet)|;
    match s.phase
    case Short => n == 0
    case PostingControlPlanes(todo) => n + |todo| == expected
    case _ => n == 0 || n == expected
  }

  lemma SparingPostKeeps(f: Fleet, mac: string)
    requires WholeOrNode(f) && forall u :: u in ControlPlanes(f) ==> !OwnedBy(f, u, mac)
    ensures ControlPlanes(Schedule(f, mac, NODE_ROLES)) == ControlPlanes(f)
  {
    NodePostAddsNone(f, mac);
    SparedStay(f, mac);
  }

  /** The event is no control plane POST, or one whose MAC leads to an unscheduled machine. */
  ghost predicate PostLands(s: State, ev: Event) {
    ev.PostControlPlane? ==> LandedPost(s, ev)
  }

  lemma WholeStepIff(expected: nat, s: State, ev: Event, t: State)
    requires Loose(expected, s) && Step(expected, s, ev, t) && Spares(s, ev) && Faultless(s, ev) && Whole(expected, s)
    ensures Whole(expected, t) <==> PostLands(s, ev)
  {
    hide Coherent, WholeOrNode, NoRepeats, ControlPlanes, Nodes, Schedule, Discover, AllHaveBoot, Enumerates, AnyNics, BootNics, Available,
         InOrder, Written, Wanted, OwnedBy;
    if ev.PostControlPlane? {
      PostCountsIff(s.fleet, s.phase.todo[0]);
    } else if ev.PostNode? && Committed(ev) {
      SparingPostKeeps(s.fleet, s.phase.todo[0]);
    } else if ev.Discovery? {
      ReportKeepsSound(s.fleet, ev.post);
    }
  }

  lemma InitiallyWhole(expected: nat)
    ensures Whole(expected, INITIAL)
  {
    assert ControlPlanes(EMPTY_FLEET) == {};
  }

  lemma WholeSays(expected: nat, s: State)
    requires Whole(expected, s)
    ensures !s.phase.PostingControlPlanes? ==> |ControlPlanes(s.fleet)| in {0, expected}
  {}

  lemma {:induction false} WholeRun(expected: nat, ss: seq<State>, evs: seq<Event>, k: nat)
    requires AnyRun(expected, ss, evs) && |ss| == |evs| + 1 && ss[0] == INITIAL && k < |ss|
    requires forall i :: 0 <= i < |evs| ==> Faultless(ss[i], evs[i]) && Spares(ss[i], evs[i])
    requires forall i :: 0 <= i < k ==> PostLands(ss[i], evs[i])
    ensures Whole(expected, ss[k])
  {
    hide *;
    if k > 0 {
      WholeRun(expected, ss, evs, k - 1);
      AnyRunIsLoose(expected, ss, evs, k - 1);
      AnyRunStep(expected, ss, evs, k - 1);
      WholeStepIff(expected, ss[k - 1], evs[k - 1], ss[k]);
    } else {
      InitiallyWhole(expected);
    }
  }

  /** In runs without faults whose node POSTs spare the control planes, there are always none
      or exactly the expected number when no control plane POST is under way, with a try on
      its way from none to that number, if and only if every control plane POST leads to an
      unscheduled machine when it is handled. */
  lemma FaultlessRunIsWholeIff(expected: nat, ss: seq<State>, evs: seq<Event>)
    requires AnyRun(expected, ss, evs) && |ss| == |evs| + 1 && ss[0] == INITIAL
    requires forall i :: 0 <= i < |evs| ==> Faultless(ss[i], evs[i]) && Spares(ss[i], evs[i])
    ensures (forall k :: 0 <= k < |ss| ==> Whole(expected, ss[k])) <==> (forall i :: 0 <= i < |evs| ==> PostLands(ss[i], evs[i]))
    ensures (forall i :: 0 <= i < |evs| ==> PostLands(ss[i], evs[i])) ==>
              forall k :: 0 <= k < |ss| && !ss[k].phase.PostingControlPlanes? ==> |ControlPlanes(ss[k].fleet)| in {0, expected}
  {
    hide *;
    if forall i :: 0 <= i < |evs| ==> PostLands(ss[i], evs[i]) {
      forall k | 0 <= k < |ss|
        ensures Whole(expected, ss[k]) && (!ss[k].phase.PostingControlPlanes? ==> |ControlPlanes(ss[k].fleet)| in {0, expected})
      {
        WholeRun(expected, ss, evs, k);
        WholeSays(expected, ss[k]);
      }
    }
    if forall k :: 0 <= k < |ss| ==> Whole(expected, ss[k]) {
      forall i | 0 <= i < |evs| ensures PostLands(ss[i], evs[i]) {
        AnyRunIsLoose(expected, ss, evs, i);
        AnyRunStep(expected, ss, evs, i);
        WholeStepIff(expected, ss[i], evs[i], ss[i + 1]);
      }
    }
  }

  // ---------- addresses ----------

  lemma AddressedStep(expected: nat, s: State, ev: Event, t: State)
    requires WellAddressed(s.fleet) && WellKeyed(s.fleet) && Step(expected, s, ev, t)
    ensures WellAddressed(t.fleet) && WellKeyed(t.fleet)
  {
    hide WellAddressed, WellKeyed, Schedule, Discover, ControlPlanes, Nodes, AllHaveBoot, Enumerates, AnyNics, BootNics, Available, InOrder, Written;
    if ev.Discovery? {
      DiscoverKeepsAddresses(s.fleet, ev.post);
      DiscoverKeepsKeys(s.fleet, ev.post);
    } else if ev.PostControlPlane? {
      ScheduleKeepsAddresses(s.fleet, s.phase.todo[0], CONTROL_PLANE_ROLES);
      ScheduleKeepsKeys(s.fleet, s.phase.todo[0], CONTROL_PLANE_ROLES);
    } else if ev.PostNode? {
      ScheduleKeepsAddresses(s.fleet, s.phase.todo[0], NODE_ROLES);
      ScheduleKeepsKeys(s.fleet, s.phase.todo[0], NODE_ROLES);
    }
  }

  lemma ScheduleKeepsKeys(f: Fleet, mac: string, roles: seq<Role>)
    requires WellKeyed(f)
    ensures WellKeyed(Schedule(f, mac, roles))
  {
    hide IsUuid, Owns, AddRoles;
  }

  /** In every state of every run the stored MACs, addresses and uuids are well formed. */
  lemma {:induction false} EveryRunIsAddressed(expected: nat, ss: seq<State>, evs: seq<Event>, k: nat)
    requires AnyRun(expected, ss, evs) && ss[0] == INITIAL && k < |ss|
    ensures WellAddressed(ss[k].fleet) && WellKeyed(ss[k].fleet)
  {
    hide *;
    if k == 0 {
      InitiallyLoose(expected);
    } else {
      EveryRunIsAddressed(expected, ss, evs, k - 1);
      AnyRunStep(expected, ss, evs, k - 1);
      AddressedStep(expected, ss[k - 1], evs[k - 1], ss[k]);
    }
  }
}
