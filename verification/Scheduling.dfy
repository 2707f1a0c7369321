/** `machine_schedule.py`: the role table, and the views of it that the plan, the sync
    and the API read. Queries name no order, so each view visits the machines in
    whatever order they come; a ghost list of uuids records which machine each entry of
    the answer is about. */
module Scheduling {
  import opened Prelude
  import opened Machines
  import opened Database
  import opened Queries

  datatype ScheduleRequest = MissingKeys | Request(mac: string, roles: seq<Role>)

  // ---------- what a view lists ----------

  /** Entry by entry, some interface of the machine. */
  ghost predicate AnyNics(f: Fleet, us: seq<string>, l: seq<Nic>) {
    |l| == |us| && forall i :: 0 <= i < |us| ==> us[i] in f.hosts && l[i] in f.hosts[us[i]].nics
  }

  /** Entry by entry, the boot interface of the machine. */
  ghost predicate BootNics(f: Fleet, us: seq<string>, l: seq<Nic>) {
    |l| == |us| && forall i :: 0 <= i < |us| ==> us[i] in f.hosts && HasBoot(f.hosts[us[i]]) && l[i] == BootNic(f.hosts[us[i]])
  }

  /** Entry by entry, the address of some interface of the machine. */
  ghost predicate SomeIps(f: Fleet, us: seq<string>, ips: seq<string>) {
    |ips| == |us| && forall i :: 0 <= i < |us| ==> us[i] in f.hosts && HasIp(f.hosts[us[i]], ips[i])
  }

  ghost predicate HasIp(h: Host, ip: string) {
    exists n :: n in h.nics && n.ipv4 == ip
  }

  /** One role selects the machines that hold it; several select the machines whose set
      of roles is exactly that set. */
  ghost function RoleHosts(f: Fleet, roles: seq<Role>): set<string> {
    if |roles| == 1 then set u | u in f.hosts && roles[0] in f.hosts[u].roles
    else set u | u in f.hosts && forall r :: r in f.hosts[u].roles <==> r in roles
  }

  lemma RoleHostsNamed(f: Fleet)
    ensures RoleHosts(f, CONTROL_PLANE_ROLES) == ControlPlanes(f)
    ensures RoleHosts(f, NODE_ROLES) == Nodes(f)
  {}

  /** Machines whose address `get_role_ip_list` reports. */
  ghost function ListedWithRole(f: Fleet, role: Role): set<string> {
    set u | u in f.hosts && role in f.hosts[u].roles && HasBoot(f.hosts[u])
  }

  ghost function Scheduled(f: Fleet): set<string> {
    set u | u in f.hosts && f.hosts[u].roles != multiset{}
  }

  /** The machine after the first k posted roles. */
  ghost function SoFar(h: Host, roles: seq<Role>, k: nat): Host
    requires k <= |roles|
  {
    AddRoles(h, roles[..k])
  }

  lemma SoFarStep(h: Host, roles: seq<Role>, k: nat)
    requires k <= |roles|
    ensures k == 0 ==> SoFar(h, roles, k) == h
    ensures k == |roles| ==> SoFar(h, roles, k) == AddRoles(h, roles)
    ensures k < |roles| ==> SoFar(h, roles, k + 1) ==
                            if roles[k] in h.roles then SoFar(h, roles, k)
                            else SoFar(h, roles, k).(roles := SoFar(h, roles, k).roles + multiset{roles[k]})
  {
    if k < |roles| {
      assert roles[..k + 1][..k] == roles[..k];
    } else {
      assert roles[..k] == roles;
    }
  }

  lemma AddRoleStep(t: Tables, s: Tables, id: nat, h: Host, roles: seq<Role>, k: nat)
    requires Valid(s) && id in t.machines && s.machines == t.machines && k < |roles| && roles[k] !in h.roles
    requires Became(t, s, id, SoFar(h, roles, k))
    ensures Valid(AddSchedule(s, id, roles[k]))
    ensures Became(t, AddSchedule(s, id, roles[k]), id, SoFar(h, roles, k + 1))
  {
    AddScheduleEffect(s, id, roles[k]);
    SoFarStep(h, roles, k);
    hide HostAt, HostsOf, Valid, SoFar;
    BecameHost(t, s, id, SoFar(h, roles, k));
    BecameThen(t, s, AddSchedule(s, id, roles[k]), id, SoFar(h, roles, k), SoFar(h, roles, k + 1));
  }

  /** The loop of `create_schedule`: a row for every posted role the machine did not hold
      when the request began. */
  method InsertRoles(t: Tables, id: nat, roles: seq<Role>) returns (s: Tables)
    requires Valid(t) && id in t.machines
    ensures Valid(s) && s.machines == t.machines && s.interfaces == t.interfaces && s.chassis == t.chassis
    ensures Became(t, s, id, AddRoles(HostAt(t, id), roles))
  {
    hide HostAt, HostsOf, Valid, SoFar, Became, Holds, AddRoles;
    ghost var h := HostAt(t, id);
    s := t;
    BecameItself(t, id);
    SoFarStep(h, roles, 0);
    for k := 0 to |roles|
      invariant Valid(s) && s.machines == t.machines && s.interfaces == t.interfaces && s.chassis == t.chassis
      invariant Became(t, s, id, SoFar(h, roles, k))
    {
      HoldsIsHeld(t, id, roles[k]);
      SoFarStep(h, roles, k);
      if !Holds(t, id, roles[k]) {
        AddRoleStep(t, s, id, h, roles, k);
        s := AddSchedule(s, id, roles[k]);
      }
    }
    SoFarStep(h, roles, |roles|);
  }

  lemma UnknownMac(t: Tables, mac: string, roles: seq<Role>)
    requires Valid(t) && forall id :: id in t.machines ==> !Owns(HostAt(t, id), mac)
    ensures Schedule(View(t), mac, roles) == View(t)
  {
    ViewKeys(t);
    hide HostAt, HostsOf, View, Owns, Schedule;
    forall u | u in View(t).hosts ensures !Owns(View(t).hosts[u], mac) {
      var id :| id in t.machines && t.machines[id] == u;
      ViewHost(t, id);
    }
    ScheduleUnknown(View(t), mac, roles);
  }

  lemma KnownMac(t: Tables, s: Tables, id: nat, mac: string, roles: seq<Role>)
    requires Valid(t) && id in t.machines && Owns(HostAt(t, id), mac) && s.chassis == t.chassis
    requires Became(t, s, id, AddRoles(HostAt(t, id), roles))
    ensures View(s) == Schedule(View(t), mac, roles)
  {
    ViewCoherent(t);
    hide HostAt, HostsOf, View, ChassisSeen, Became, Owns, Schedule, AddRoles, Coherent;
    BecameView(t, s, id, AddRoles(HostAt(t, id), roles));
    ViewHost(t, id);
    ScheduleHitsOwner(View(t), t.machines[id], mac, roles);
  }

  class MachineScheduleRepository {
    const db: Connection

    constructor (db: Connection)
      ensures this.db == db
    {
      this.db := db;
    }

    method FindByMac(mac: string) returns (r: Option<nat>)
      requires Valid(db.committed)
      ensures r.Some? ==> r.value in db.committed.machines && Owns(HostAt(db.committed, r.value), mac)
      ensures r.None? ==> forall id :: id in db.committed.machines ==> !Owns(HostAt(db.committed, id), mac)
    {
      var t := db.committed;
      if k :| k in t.interfaces && t.interfaces[k].value.mac == mac {
        RowOfHost(t, t.interfaces[k].machineId, k);
        r := Some(t.interfaces[k].machineId);
      } else {
        forall id ensures !Owns(HostAt(t, id), mac) {
          OwnsByRow(t, id, mac);
        }
        r := None;
      }
    }

    /** `create_schedule`. The roles already held are read once, before the loop. */
    method CreateSchedule(req: ScheduleRequest) returns (ok: bool)
      requires Valid(db.committed)
      modifies db
      ensures Valid(db.committed)
      ensures ok <==> req.Request?
      ensures View(db.committed) == (if req.Request? then Schedule(old(View(db.committed)), req.mac, req.roles) else old(View(db.committed)))
      ensures db.committed.interfaces == old(db.committed.interfaces) && db.committed.machines == old(db.committed.machines)
    {
      if req.MissingKeys? {
        return false;
      }
      hide *;
      var found := FindByMac(req.mac);
      if found.None? {
        UnknownMac(db.committed, req.mac, req.roles);
        return true;
      }
      var id, t := found.value, db.committed;
      var s := InsertRoles(t, id, req.roles);
      KnownMac(t, s, id, req.mac, req.roles);
      db.committed := s;
      ok := true;
    }

    /** `get_available_machines`: machines without a schedule that have a boot interface,
        each shown by the first of its interfaces. */
    method GetAvailableMachines() returns (l: seq<Nic>, ghost us: seq<string>)
      requires Valid(db.committed)
      ensures Enumerates(us, Available(View(db.committed))) && AnyNics(View(db.committed), us, l)
    {
      var t := db.committed;
      ghost var f, s := View(t), Available(View(t));
      ValidUuids(t);
      ViewKeys(t);
      hide *;
      var ids := QueryMachines(t);
      l, us := [], [];
      VisitedNone(t, ids, s);
      for k := 0 to |ids|
        invariant Visited(t, ids, k, s, us) && AnyNics(f, us, l)
      {
        VisitedNext(t, ids, k, s, us);
        var id := ids[k];
        AvailableIs(t, id);
        UnscheduledHoldsNothing(t, id);
        var boot := BootInterface(t, id);
        if boot.Some? && Unscheduled(t, id) {
          var n := FirstInterface(t, id);
          AnyNicsAdd(f, us, l, t.machines[id], n);
          l, us := l + [n], us + [t.machines[id]];
        }
      }
      AvailableKnown(t);
      VisitedAll(t, ids, s, us);
    }

    /** `get_machines_by_roles`; None where reading the boot interface of a machine that
        has none raises. */
    method GetMachinesByRoles(roles: seq<Role>) returns (r: Option<seq<Nic>>, ghost us: seq<string>)
      requires Valid(db.committed)
      ensures r.Some? <==> AllHaveBoot(View(db.committed), RoleHosts(View(db.committed), roles))
      ensures r.Some? ==> Enumerates(us, RoleHosts(View(db.committed), roles)) && BootNics(View(db.committed), us, r.value)
    {
      var t := db.committed;
      ghost var f, s := View(t), RoleHosts(View(t), roles);
      ValidUuids(t);
      hide *;
      var ids := QueryMachines(t);
      var l: seq<Nic> := [];
      us := [];
      VisitedNone(t, ids, s);
      for k := 0 to |ids|
        invariant Visited(t, ids, k, s, us) && BootNics(f, us, l)
      {
        VisitedNext(t, ids, k, s, us);
        var id := ids[k];
        RoleHostIs(t, id, roles);
        HasRolesIsHost(t, id, roles);
        if HasRoles(t, id, roles) {
          var boot := BootInterface(t, id);
          if boot.None? {
            NoBootIn(f, s, t.machines[id]);
            return None, us;
          }
          BootNicsAdd(f, us, l, t.machines[id]);
          l, us := l + [boot.value], us + [t.machines[id]];
        }
      }
      RoleHostsKnown(t, roles);
      VisitedAll(t, ids, s, us);
      BootNicsAll(f, s, us, l);
      r := Some(l);
    }

    /** `get_role_ip_list`: the address of the first interface, not of the boot one. */
    method GetRoleIpList(role: Role) returns (ips: seq<string>, ghost us: seq<string>)
      requires Valid(db.committed)
      ensures Enumerates(us, ListedWithRole(View(db.committed), role)) && SomeIps(View(db.committed), us, ips)
    {
      var t := db.committed;
      ghost var f, s := View(t), ListedWithRole(View(t), role);
      ValidUuids(t);
      hide *;
      var ids := QueryMachines(t);
      ips, us := [], [];
      VisitedNone(t, ids, s);
      for k := 0 to |ids|
        invariant Visited(t, ids, k, s, us) && SomeIps(f, us, ips)
      {
        VisitedNext(t, ids, k, s, us);
        var id := ids[k];
        ListedIs(t, id, role);
        HoldsIsHeld(t, id, role);
        var boot := BootInterface(t, id);
        if boot.Some? && Holds(t, id, role) {
          var n := FirstInterface(t, id);
          SomeIpsAdd(f, us, ips, t.machines[id], n);
          ips, us := ips + [n.ipv4], us + [t.machines[id]];
        }
      }
      ListedKnown(t, role);
      VisitedAll(t, ids, s, us);
    }

    /** `get_all_schedules`: a dictionary from boot MAC to roles; None as above. */
    method GetAllSchedules() returns (r: Option<map<string, seq<Role>>>)
      requires Valid(db.committed)
      ensures r.Some? <==> AllHaveBoot(View(db.committed), Scheduled(View(db.committed)))
      ensures r.Some? ==> SchedulesListed(View(db.committed), Scheduled(View(db.committed)), r.value)
    {
      var t := db.committed;
      ghost var f, s, us := View(t), Scheduled(View(t)), [];
      ValidUuids(t);
      ViewCoherent(t);
      hide *;
      var ids := QueryMachines(t);
      var m: map<string, seq<Role>> := map[];
      VisitedNone(t, ids, s);
      for k := 0 to |ids|
        invariant Visited(t, ids, k, s, us) && SchedulesListed(f, Elements(us), m)
      {
        VisitedNext(t, ids, k, s, us);
        var id := ids[k];
        ScheduledIs(t, id);
        UnscheduledHoldsNothing(t, id);
        if !Unscheduled(t, id) {
          var boot := BootInterface(t, id);
          if boot.None? {
            NoBootIn(f, s, t.machines[id]);
            return None;
          }
          var roles := RelatedRows(At(t.schedules, id));
          VisitedAreKnown(t, ids, k, s, us);
          SchedulesAdd(f, us, m, t.machines[id], roles);
          m, us := m[boot.value.mac := roles], us + [t.machines[id]];
        }
      }
      ScheduledKnown(t);
      VisitedAll(t, ids, s, us);
      SchedulesAll(f, s, us, m);
      r := Some(m);
    }
  }

  predicate HasRoles(t: Tables, id: nat, roles: seq<Role>) {
    if |roles| == 1 then Holds(t, id, roles[0])
    else
      && (forall k :: k in t.schedules && t.schedules[k].machineId == id ==> t.schedules[k].value in roles)
      && (forall i :: 0 <= i < |roles| ==> Holds(t, id, roles[i]))
  }

  lemma HasRolesIsHost(t: Tables, id: nat, roles: seq<Role>)
    ensures HasRoles(t, id, roles) <==>
            if |roles| == 1 then roles[0] in HostAt(t, id).roles
            else forall r :: r in HostAt(t, id).roles <==> r in roles
  {
    hide HostAt, Holds;
    forall r ensures Holds(t, id, r) <==> r in HostAt(t, id).roles {
      HoldsIsHeld(t, id, r);
    }
    HasRolesHolds(t, id, roles);
    hide HasRoles;
  }

  lemma HasRolesHolds(t: Tables, id: nat, roles: seq<Role>)
    ensures HasRoles(t, id, roles) <==>
            if |roles| == 1 then Holds(t, id, roles[0]) else forall r :: Holds(t, id, r) <==> r in roles
  {
    HeldValues(t, id);
    hide Holds;
    if |roles| != 1 {
      if HasRoles(t, id, roles) {
        forall r ensures Holds(t, id, r) <==> r in roles {}
      }
      if forall r :: Holds(t, id, r) <==> r in roles {
        assert HasRoles(t, id, roles);
      }
    }
  }

  lemma HeldValues(t: Tables, id: nat)
    ensures forall k :: k in t.schedules && t.schedules[k].machineId == id ==> Holds(t, id, t.schedules[k].value)
    ensures forall r :: Holds(t, id, r) ==> exists k :: k in t.schedules && t.schedules[k].machineId == id && t.schedules[k].value == r
  {}

  lemma NoBootIn(f: Fleet, s: set<string>, u: string)
    requires u in s && u in f.hosts && !HasBoot(f.hosts[u])
    ensures !AllHaveBoot(f, s)
  {}

  lemma BootNicsAdd(f: Fleet, us: seq<string>, l: seq<Nic>, u: string)
    requires BootNics(f, us, l) && u in f.hosts && HasBoot(f.hosts[u])
    ensures BootNics(f, us + [u], l + [BootNic(f.hosts[u])])
  {}

  lemma BootNicsAll(f: Fleet, s: set<string>, us: seq<string>, l: seq<Nic>)
    requires Enumerates(us, s) && BootNics(f, us, l)
    ensures AllHaveBoot(f, s)
  {
    forall u | u in s && u in f.hosts ensures HasBoot(f.hosts[u]) {
      assert u in us;
    }
  }

  lemma SomeIpsAdd(f: Fleet, us: seq<string>, ips: seq<string>, u: string, n: Nic)
    requires SomeIps(f, us, ips) && u in f.hosts && n in f.hosts[u].nics
    ensures SomeIps(f, us + [u], ips + [n.ipv4])
  {}

  // ---------- the dictionary of schedules ----------

  ghost predicate BootsAs(f: Fleet, u: string, mac: string) {
    u in f.hosts && HasBoot(f.hosts[u]) && BootNic(f.hosts[u]).mac == mac
  }

  /** m maps the boot MAC of every machine of the set to that machine's roles. */
  ghost predicate SchedulesListed(f: Fleet, s: set<string>, m: map<string, seq<Role>>) {
    && (forall u :: u in s ==> u in f.hosts && HasBoot(f.hosts[u]))
    && (forall u, mac :: u in s && BootsAs(f, u, mac) ==> mac in m && multiset(m[mac]) == f.hosts[u].roles)
    && (forall mac :: mac in m ==> exists u :: u in s && BootsAs(f, u, mac))
  }

  lemma SchedulesAdd(f: Fleet, us: seq<string>, m: map<string, seq<Role>>, u: string, roles: seq<Role>)
    requires Coherent(f) && SchedulesListed(f, Elements(us), m) && u !in us
    requires u in f.hosts && HasBoot(f.hosts[u]) && multiset(roles) == f.hosts[u].roles
    ensures SchedulesListed(f, Elements(us + [u]), m[BootNic(f.hosts[u]).mac := roles])
  {
    var mac := BootNic(f.hosts[u]).mac;
    assert Elements(us + [u]) == Elements(us) + {u};
    forall v | v in Elements(us) ensures !BootsAs(f, v, mac) {
      BootMacsDiffer(f, u, v);
    }
    assert BootsAs(f, u, mac) && forall k :: BootsAs(f, u, k) ==> k == mac;
    hide *;
    ListedWithOneMore(f, Elements(us), m, u, mac, roles);
  }

  lemma ListedWithOneMore(f: Fleet, s: set<string>, m: map<string, seq<Role>>, u: string, mac: string, roles: seq<Role>)
    requires SchedulesListed(f, s, m) && u in f.hosts && HasBoot(f.hosts[u]) && multiset(roles) == f.hosts[u].roles
    requires BootsAs(f, u, mac) && forall k :: BootsAs(f, u, k) ==> k == mac
    requires forall v :: v in s ==> !BootsAs(f, v, mac)
    ensures SchedulesListed(f, s + {u}, m[mac := roles])
  {
    hide BootsAs, HasBoot;
  }

  lemma BootMacsDiffer(f: Fleet, u: string, v: string)
    requires Coherent(f) && u in f.hosts && v in f.hosts && u != v && HasBoot(f.hosts[u]) && HasBoot(f.hosts[v])
    ensures BootNic(f.hosts[u]).mac != BootNic(f.hosts[v]).mac
  {}

  lemma VisitedAreKnown(t: Tables, ids: seq<nat>, k: nat, s: set<string>, us: seq<string>)
    requires UuidsUnique(t.machines) && Distinct(ids) && k < |ids| && Visited(t, ids, k, s, us)
    ensures ids[k] in t.machines && t.machines[ids[k]] !in us
  {}

  lemma SchedulesAll(f: Fleet, s: set<string>, us: seq<string>, m: map<string, seq<Role>>)
    requires Enumerates(us, s) && SchedulesListed(f, Elements(us), m)
    ensures SchedulesListed(f, s, m) && AllHaveBoot(f, s)
  {
    assert Elements(us) == s;
  }

  // ---------- membership of the machine just visited ----------

  lemma AvailableIs(t: Tables, id: nat)
    requires UuidsUnique(t.machines) && id in t.machines
    ensures t.machines[id] in View(t).hosts && View(t).hosts[t.machines[id]] == HostAt(t, id)
    ensures t.machines[id] in Available(View(t)) <==> HasBoot(HostAt(t, id)) && HostAt(t, id).roles == multiset{}
  {
    hide HostAt, View, HasBoot, UuidsUnique;
    ViewHost(t, id);
  }

  lemma ScheduledIs(t: Tables, id: nat)
    requires UuidsUnique(t.machines) && id in t.machines
    ensures t.machines[id] in View(t).hosts && View(t).hosts[t.machines[id]] == HostAt(t, id)
    ensures t.machines[id] in Scheduled(View(t)) <==> HostAt(t, id).roles != multiset{}
  {
    hide HostAt, View, HasBoot, UuidsUnique;
    ViewHost(t, id);
  }

  lemma ListedIs(t: Tables, id: nat, r: Role)
    requires UuidsUnique(t.machines) && id in t.machines
    ensures t.machines[id] in View(t).hosts && View(t).hosts[t.machines[id]] == HostAt(t, id)
    ensures t.machines[id] in ListedWithRole(View(t), r) <==> r in HostAt(t, id).roles && HasBoot(HostAt(t, id))
  {
    hide HostAt, View, HasBoot, UuidsUnique;
    ViewHost(t, id);
  }

  lemma RoleHostIs(t: Tables, id: nat, rs: seq<Role>)
    requires UuidsUnique(t.machines) && id in t.machines
    ensures t.machines[id] in View(t).hosts && View(t).hosts[t.machines[id]] == HostAt(t, id)
    ensures t.machines[id] in RoleHosts(View(t), rs) <==>
            if |rs| == 1 then rs[0] in HostAt(t, id).roles else forall r :: r in HostAt(t, id).roles <==> r in rs
  {
    hide HostAt, View, HasBoot, UuidsUnique;
    ViewHost(t, id);
  }

  lemma AvailableKnown(t: Tables)
    ensures forall u :: u in Available(View(t)) ==> u in t.machines.Values
  {
    ViewKeys(t);
    hide View;
  }

  lemma ScheduledKnown(t: Tables)
    ensures forall u :: u in Scheduled(View(t)) ==> u in t.machines.Values
  {
    ViewKeys(t);
    hide View;
  }

  lemma ListedKnown(t: Tables, r: Role)
    ensures forall u :: u in ListedWithRole(View(t), r) ==> u in t.machines.Values
  {
    ViewKeys(t);
    hide View;
  }

  lemma RoleHostsKnown(t: Tables, rs: seq<Role>)
    ensures forall u :: u in RoleHosts(View(t), rs) ==> u in t.machines.Values
  {
    ViewKeys(t);
    hide View;
  }

  lemma AnyNicsAdd(f: Fleet, us: seq<string>, l: seq<Nic>, u: string, n: Nic)
    requires AnyNics(f, us, l) && u in f.hosts && n in f.hosts[u].nics
    ensures AnyNics(f, us + [u], l + [n])
  {}
}
