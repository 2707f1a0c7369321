/** The export of a database that the plan has filled: in every run all scheduled machines
    are exported, and the replay brings their whole sets of roles back. */
module BackupHistory {
  import opened Prelude
  import opened Machines
  import opened Queries
  import opened Scheduling
  import opened PlanRun
  import opened PlanSafety
  import opened PlanHazards
  import opened PlanHistory
  import Backup

  /** Etcd member and control plane go together. */
  ghost predicate Paired(f: Fleet) {
    forall u :: u in f.hosts ==> (EtcdMember in f.hosts[u].roles <==> KubernetesControlPlane in f.hosts[u].roles)
  }

  lemma PostKeepsPaired(f: Fleet, mac: string, roles: seq<Role>)
    requires Paired(f) && (roles == CONTROL_PLANE_ROLES || roles == NODE_ROLES)
    ensures Paired(Schedule(f, mac, roles))
  {
    forall u | u in f.hosts
      ensures EtcdMember in f.hosts[u].roles && KubernetesControlPlane in f.hosts[u].roles
              ==> EtcdMember in AddRoles(f.hosts[u], roles).roles && KubernetesControlPlane in AddRoles(f.hosts[u], roles).roles
      ensures EtcdMember !in f.hosts[u].roles && KubernetesControlPlane !in f.hosts[u].roles
              ==> (EtcdMember in AddRoles(f.hosts[u], roles).roles <==> KubernetesControlPlane in AddRoles(f.hosts[u], roles).roles)
    {
      BundleValues(f.hosts[u]);
      NotSameBundle();
    }
    hide AddRoles, Owns;
  }

  lemma ReportKeepsPaired(f: Fleet, p: Post)
    requires Paired(f)
    ensures Paired(Discover(f, p))
  {
    var g := Discover(f, p);
    forall u | u in g.hosts ensures g.hosts[u].roles == RolesHeld(f, u) {
      DiscoverEffect(f, p, u);
    }
    hide Discover;
  }

  lemma PairedStep(expected: nat, s: State, ev: Event, t: State)
    requires Paired(s.fleet) && Step(expected, s, ev, t)
    ensures Paired(t.fleet)
  {
    hide Paired, Schedule, Discover, ControlPlanes, Nodes, AllHaveBoot, Enumerates, AnyNics, BootNics, Available, InOrder, Written;
    if ev.Discovery? {
      ReportKeepsPaired(s.fleet, ev.post);
    } else if ev.PostControlPlane? {
      PostKeepsPaired(s.fleet, s.phase.todo[0], CONTROL_PLANE_ROLES);
    } else if ev.PostNode? {
      PostKeepsPaired(s.fleet, s.phase.todo[0], NODE_ROLES);
    }
  }

  lemma InitiallyPaired()
    ensures Paired(INITIAL.fleet)
  {}

  lemma {:induction false} EveryRunIsPaired(expected: nat, ss: seq<State>, evs: seq<Event>, k: nat)
    requires AnyRun(expected, ss, evs) && ss[0] == INITIAL && k < |ss|
    ensures Paired(ss[k].fleet)
  {
    hide *;
    if k == 0 {
      InitiallyPaired();
    } else {
      EveryRunIsPaired(expected, ss, evs, k - 1);
      AnyRunStep(expected, ss, evs, k - 1);
      PairedStep(expected, ss[k - 1], evs[k - 1], ss[k]);
    }
  }

  /** Where no row is repeated and the two roles go together, the export by role tells
      everything: it covers the scheduled machines and their whole sets of roles. */
  lemma ExportTellsAll(f: Fleet)
    requires NoRepeats(f) && Paired(f)
    ensures Backup.Exported(f) == Scheduled(f)
    ensures forall u :: u in f.hosts ==> Backup.RolesBack(f.hosts[u].roles) == f.hosts[u].roles
  {
    forall u | u in f.hosts
      ensures Backup.RolesBack(f.hosts[u].roles) == f.hosts[u].roles
      ensures f.hosts[u].roles != multiset{} <==> KubernetesControlPlane in f.hosts[u].roles || KubernetesNode in f.hosts[u].roles
    {
      Backup.RolesBackIff(f.hosts[u].roles);
      SomeRoleHeld(f.hosts[u].roles);
    }
    hide Backup.RolesBack, NoRepeats, Paired;
  }

  lemma SomeRoleHeld(roles: multiset<Role>)
    ensures roles != multiset{} <==> EtcdMember in roles || KubernetesControlPlane in roles || KubernetesNode in roles
  {
    if roles != multiset{} {
      var r :| r in roles;
      match r case EtcdMember => case KubernetesControlPlane => case KubernetesNode =>
    }
  }

  lemma LooseSays(expected: nat, s: State)
    requires Loose(expected, s)
    ensures Coherent(s.fleet) && NoRepeats(s.fleet)
  {}

  lemma IsStored(f: Fleet)
    requires Coherent(f) && WellAddressed(f) && WellKeyed(f)
    ensures Backup.Stored(f)
  {}

  /** In every state of every run, with reports at any moment and faults anywhere: the
      playbook replayed on an empty database brings back exactly the scheduled machines, each
      with its interfaces and disks and with exactly the roles it holds. */
  lemma RunRoundTrip(expected: nat, ss: seq<State>, evs: seq<Event>, k: nat, us: seq<string>, vs: seq<string>, playbook: seq<Backup.Entry>)
    requires AnyRun(expected, ss, evs) && ss[0] == INITIAL && k < |ss| && Backup.IsPlaybook(ss[k].fleet, us, vs, playbook)
    ensures var f, g := ss[k].fleet, Backup.Replay(EMPTY_FLEET, playbook);
      && g.hosts.Keys == Scheduled(f)
      && forall u :: u in Scheduled(f) ==> u in f.hosts && Backup.Rebuilt(f.hosts[u], g.hosts[u], f.hosts[u].roles)
  {
    hide *;
    AnyRunIsLoose(expected, ss, evs, k);
    LooseSays(expected, ss[k]);
    EveryRunIsAddressed(expected, ss, evs, k);
    EveryRunIsPaired(expected, ss, evs, k);
    IsStored(ss[k].fleet);
    ExportTellsAll(ss[k].fleet);
    Backup.RoundTrip(ss[k].fleet, us, vs, playbook);
  }
}
