/** The SQL tables. Rows are keyed by their primary key and carry no order, as a query
    without ORDER BY promises none; ids come from one counter. `View` is what a state of
    the tables says about the fleet. */
module Database {
  import opened Prelude
  import opened Machines

  /** A row that belongs to a machine. */
  datatype Owned<V> = Owned(machineId: nat, value: V)
  datatype ChassisRow = ChassisRow(name: string, mac: string)
  datatype PortRow = PortRow(mac: string, chassisId: nat, interfaceId: nat)

  datatype Tables = Tables(
    machines: map<nat, string>,
    interfaces: map<nat, Owned<Nic>>,
    disks: map<nat, Owned<Disk>>,
    chassis: map<nat, ChassisRow>,
    ports: map<nat, PortRow>,
    schedules: map<nat, Owned<Role>>,
    next: nat)

  const EMPTY_TABLES: Tables := Tables(map[], map[], map[], map[], map[], map[], 0)

  // ---------- rows attached to a machine ----------

  function At<V>(rows: map<nat, Owned<V>>, id: nat): map<nat, V> {
    map k | k in rows && rows[k].machineId == id :: rows[k].value
  }

  lemma AtInsert<V>(rows: map<nat, Owned<V>>, k: nat, id: nat, v: V)
    requires k !in rows
    ensures At(rows[k := Owned(id, v)], id) == At(rows, id)[k := v]
    ensures Bag(At(rows[k := Owned(id, v)], id)) == Bag(At(rows, id)) + multiset{v}
    ensures forall o :: o != id ==> At(rows[k := Owned(id, v)], o) == At(rows, o)
  {
    hide *;
    AtInsertRows(rows, k, id, v);
    BagInsert(At(rows, id), k, v);
  }

  lemma AtInsertRows<V>(rows: map<nat, Owned<V>>, k: nat, id: nat, v: V)
    requires k !in rows
    ensures k !in At(rows, id) && At(rows[k := Owned(id, v)], id) == At(rows, id)[k := v]
    ensures forall o :: o != id ==> At(rows[k := Owned(id, v)], o) == At(rows, o)
  {}

  function Without<V>(rows: map<nat, Owned<V>>, id: nat): map<nat, Owned<V>> {
    map k | k in rows && rows[k].machineId != id :: rows[k]
  }

  lemma AtWithout<V>(rows: map<nat, Owned<V>>, id: nat)
    ensures At(Without(rows, id), id) == map[]
    ensures forall o :: o != id ==> At(Without(rows, id), o) == At(rows, o)
  {}

  lemma AtNobody<V>(rows: map<nat, Owned<V>>, id: nat)
    requires forall k :: k in rows ==> rows[k].machineId != id
    ensures At(rows, id) == map[]
  {}

  /** The chassis ports joined with their chassis and their interface. */
  ghost function Plugged(ports: map<nat, PortRow>, chassis: map<nat, ChassisRow>,
                         interfaces: map<nat, Owned<Nic>>): map<nat, Owned<Link>> {
    map k | k in ports && ports[k].chassisId in chassis && ports[k].interfaceId in interfaces ::
      Owned(interfaces[ports[k].interfaceId].machineId,
            Link(ports[k].mac, chassis[ports[k].chassisId].name, interfaces[ports[k].interfaceId].value.mac))
  }

  ghost function HostAt(t: Tables, id: nat): Host {
    Host(At(t.interfaces, id).Values, Bag(At(t.disks, id)),
         Bag(At(Plugged(t.ports, t.chassis, t.interfaces), id)), Bag(At(t.schedules, id)))
  }

  // ---------- integrity ----------

  ghost predicate UuidsUnique(machines: map<nat, string>) {
    forall a, b :: a in machines && b in machines && machines[a] == machines[b] ==> a == b
  }

  ghost predicate MacsUnique(interfaces: map<nat, Owned<Nic>>) {
    forall a, b :: a in interfaces && b in interfaces && interfaces[a].value.mac == interfaces[b].value.mac ==> a == b
  }

  ghost predicate OneBootEach(interfaces: map<nat, Owned<Nic>>) {
    forall a, b | a in interfaces && b in interfaces && interfaces[a].machineId == interfaces[b].machineId ::
      interfaces[a].value.asBoot && interfaces[b].value.asBoot ==> a == b
  }

  ghost predicate NamesUnique(chassis: map<nat, ChassisRow>) {
    forall a, b :: a in chassis && b in chassis && chassis[a].name == chassis[b].name ==> a == b
  }

  ghost predicate OwnersExist<V>(rows: map<nat, Owned<V>>, machines: map<nat, string>) {
    forall k :: k in rows ==> rows[k].machineId in machines
  }

  ghost predicate PortsResolve(ports: map<nat, PortRow>, chassis: map<nat, ChassisRow>, interfaces: map<nat, Owned<Nic>>) {
    forall k :: k in ports ==> ports[k].chassisId in chassis && ports[k].interfaceId in interfaces
  }

  ghost predicate Below<V>(rows: map<nat, V>, next: nat) {
    forall k :: k in rows ==> k < next
  }

  lemma BelowInsert<V>(rows: map<nat, V>, next: nat, v: V)
    requires Below(rows, next)
    ensures next !in rows && Below(rows, next + 1) && Below(rows[next := v], next + 1)
  {}

  /** Unique columns, foreign keys, fresh ids; and one boot interface per machine. */
  ghost predicate Valid(t: Tables) {
    && UuidsUnique(t.machines)
    && MacsUnique(t.interfaces)
    && OneBootEach(t.interfaces)
    && NamesUnique(t.chassis)
    && OwnersExist(t.interfaces, t.machines)
    && OwnersExist(t.disks, t.machines)
    && OwnersExist(t.schedules, t.machines)
    && PortsResolve(t.ports, t.chassis, t.interfaces)
    && AllBelow(t)
  }

  ghost predicate AllBelow(t: Tables) {
    && Below(t.machines, t.next) && Below(t.interfaces, t.next) && Below(t.disks, t.next)
    && Below(t.chassis, t.next) && Below(t.ports, t.next) && Below(t.schedules, t.next)
  }

  // ---------- the view ----------

  ghost function IdOf(machines: map<nat, string>, u: string): nat
    requires u in machines.Values
    ensures IdOf(machines, u) in machines && machines[IdOf(machines, u)] == u
  {
    var id :| id in machines && machines[id] == u; id
  }

  ghost function ChassisSeen(chassis: map<nat, ChassisRow>): map<string, string> {
    map n | n in ChassisNames(chassis) :: chassis[ChassisNamed(chassis, n)].mac
  }

  ghost function ChassisNames(chassis: map<nat, ChassisRow>): set<string> {
    set k | k in chassis :: chassis[k].name
  }

  ghost function ChassisNamed(chassis: map<nat, ChassisRow>, n: string): nat
    requires n in ChassisNames(chassis)
    ensures ChassisNamed(chassis, n) in chassis && chassis[ChassisNamed(chassis, n)].name == n
  {
    var k :| k in chassis && chassis[k].name == n; k
  }

  /** The machines as the table of ids sees them. */
  ghost function HostsOf(t: Tables): map<nat, Host> {
    map id | id in t.machines :: HostAt(t, id)
  }

  lemma HostsOfKeys(t: Tables)
    ensures HostsOf(t).Keys == t.machines.Keys
  {}

  ghost function ByUuid(machines: map<nat, string>, hosts: map<nat, Host>): map<string, Host>
    requires hosts.Keys == machines.Keys
  {
    map u | u in machines.Values :: hosts[IdOf(machines, u)]
  }

  ghost function View(t: Tables): (f: Fleet)
    ensures f.chassis == ChassisSeen(t.chassis)
  {
    Fleet(ByUuid(t.machines, HostsOf(t)), ChassisSeen(t.chassis))
  }

  lemma ByUuidAt(machines: map<nat, string>, hosts: map<nat, Host>, id: nat)
    requires UuidsUnique(machines) && hosts.Keys == machines.Keys && id in machines
    ensures machines[id] in ByUuid(machines, hosts) && ByUuid(machines, hosts)[machines[id]] == hosts[id]
  {
    assert IdOf(machines, machines[id]) == id;
  }

  lemma ByUuidUpdate(machines: map<nat, string>, hosts: map<nat, Host>, id: nat, h: Host)
    requires UuidsUnique(machines) && hosts.Keys == machines.Keys && id in machines
    ensures hosts[id := h].Keys == machines.Keys
    ensures ByUuid(machines, hosts[id := h]) == ByUuid(machines, hosts)[machines[id] := h]
  {
    var more := hosts[id := h];
    forall u | u in machines.Values
      ensures more[IdOf(machines, u)] == (if u == machines[id] then h else hosts[IdOf(machines, u)])
    {}
  }

  lemma ByUuidInsert(machines: map<nat, string>, hosts: map<nat, Host>, id: nat, u: string, h: Host)
    requires UuidsUnique(machines) && hosts.Keys == machines.Keys && id !in machines && u !in machines.Values
    ensures UuidsUnique(machines[id := u]) && hosts[id := h].Keys == machines[id := u].Keys
    ensures ByUuid(machines[id := u], hosts[id := h]) == ByUuid(machines, hosts)[u := h]
  {
    hide ByUuid;
    var ms, hs := machines[id := u], hosts[id := h];
    UuidsInsert(machines, id, u);
    ByUuidKeys(machines, hosts);
    ByUuidKeys(ms, hs);
    ByUuidAt(ms, hs, id);
    forall w | w in machines.Values ensures ByUuid(ms, hs)[w] == ByUuid(machines, hosts)[w] {
      ByUuidAt(machines, hosts, IdOf(machines, w));
      ByUuidAt(ms, hs, IdOf(machines, w));
    }
  }

  lemma UuidsInsert(machines: map<nat, string>, id: nat, u: string)
    requires UuidsUnique(machines) && id !in machines && u !in machines.Values
    ensures UuidsUnique(machines[id := u]) && machines[id := u].Values == machines.Values + {u}
  {
    var ms := machines[id := u];
    assert forall k :: k in machines ==> machines[k] in machines.Values;
    assert ms[id] == u;
    forall w | w in machines.Values ensures w in ms.Values {
      assert ms[IdOf(machines, w)] == w;
    }
  }

  lemma ByUuidKeys(machines: map<nat, string>, hosts: map<nat, Host>)
    requires hosts.Keys == machines.Keys
    ensures ByUuid(machines, hosts).Keys == machines.Values
  {}

  lemma ViewHost(t: Tables, id: nat)
    requires UuidsUnique(t.machines) && id in t.machines
    ensures t.machines[id] in View(t).hosts
    ensures View(t).hosts[t.machines[id]] == HostAt(t, id)
  {
    ByUuidAt(t.machines, HostsOf(t), id);
  }

  lemma ViewKeys(t: Tables)
    ensures View(t).hosts.Keys == t.machines.Values
  {
    hide HostAt, HostsOf;
    HostsOfKeys(t);
  }

  lemma ValidUuids(t: Tables)
    requires Valid(t)
    ensures UuidsUnique(t.machines) && OneBootEach(t.interfaces)
  {}

  lemma ViewCoherent(t: Tables)
    requires Valid(t)
    ensures Coherent(View(t))
  {
    var f := View(t);
    forall u, v, n, k | u in f.hosts && v in f.hosts && n in f.hosts[u].nics && k in f.hosts[v].nics
      ensures n.mac == k.mac ==> u == v && n == k
      ensures u == v && n.asBoot && k.asBoot ==> n == k
    {
      var i := RowOfNic(t, u, n);
      var j := RowOfNic(t, v, k);
    }
  }

  lemma RowOfNic(t: Tables, u: string, n: Nic) returns (k: nat)
    requires u in View(t).hosts && n in View(t).hosts[u].nics
    ensures k in t.interfaces && t.interfaces[k] == Owned(IdOf(t.machines, u), n)
  {
    var rows := At(t.interfaces, IdOf(t.machines, u));
    assert n in rows.Values;
    k :| k in rows && rows[k] == n;
  }

  /** A connection: what has been committed. A transaction works on a copy and commits
      it whole, or leaves it. */
  class Connection {
    var committed: Tables

    constructor ()
      ensures committed == EMPTY_TABLES && Valid(committed) && View(committed) == EMPTY_FLEET
    {
      committed := EMPTY_TABLES;
      new;
      assert View(EMPTY_TABLES).hosts == map[] && View(EMPTY_TABLES).chassis == map[];
    }
  }

  /** Nothing but machine `id` changed, and it is now `h`. */
  ghost predicate OnlyHost(t: Tables, s: Tables, id: nat, h: Host) {
    && s.machines == t.machines
    && s.chassis == t.chassis
    && HostsOf(s) == HostsOf(t)[id := h]
  }

  lemma OnlyHostView(t: Tables, s: Tables, id: nat, h: Host)
    requires UuidsUnique(t.machines) && id in t.machines && OnlyHost(t, s, id, h)
    ensures View(s) == View(t).(hosts := View(t).hosts[t.machines[id] := h])
  {
    ByUuidUpdate(t.machines, HostsOf(t), id, h);
  }

  /** As OnlyHost, but the chassis table may have grown too. */
  ghost predicate Became(t: Tables, s: Tables, id: nat, h: Host) {
    s.machines == t.machines && HostsOf(s) == HostsOf(t)[id := h]
  }

  lemma BecameView(t: Tables, s: Tables, id: nat, h: Host)
    requires UuidsUnique(t.machines) && id in t.machines && Became(t, s, id, h)
    ensures View(s) == Fleet(View(t).hosts[t.machines[id] := h], ChassisSeen(s.chassis))
  {
    hide HostAt, ChassisSeen;
    ByUuidUpdate(t.machines, HostsOf(t), id, h);
  }

  lemma BecameItself(t: Tables, id: nat)
    requires id in t.machines
    ensures Became(t, t, id, HostAt(t, id))
  {
    hide HostAt;
  }

  lemma BecameThen(t: Tables, s: Tables, r: Tables, id: nat, h: Host, g: Host)
    requires id in t.machines && Became(t, s, id, h) && Became(s, r, id, g)
    ensures HostAt(s, id) == h && Became(t, r, id, g)
  {
    hide HostAt;
    assert HostsOf(s)[id] == HostAt(s, id);
  }

  lemma BecameHost(t: Tables, s: Tables, id: nat, h: Host)
    requires id in t.machines && Became(t, s, id, h)
    ensures HostAt(s, id) == h
  {
    hide HostAt;
    assert HostsOf(s)[id] == HostAt(s, id);
  }

  lemma HostsChange(t: Tables, s: Tables, id: nat, h: Host)
    requires s.machines == t.machines && s.chassis == t.chassis && id in t.machines
    requires HostAt(s, id) == h
    requires forall o :: o != id ==> HostAt(s, o) == HostAt(t, o)
    ensures OnlyHost(t, s, id, h)
  {
    hide HostAt;
  }

  // ---------- the statements of a transaction ----------

  function AddMachine(t: Tables, uuid: string): Tables {
    t.(machines := t.machines[t.next := uuid], next := t.next + 1)
  }

  lemma AddMachineEffect(t: Tables, uuid: string)
    requires Valid(t) && uuid !in t.machines.Values
    ensures Valid(AddMachine(t, uuid))
    ensures HostsOf(AddMachine(t, uuid)) == HostsOf(t)[t.next := Host({}, multiset{}, multiset{}, multiset{})]
  {
    hide HostAt;
    AddMachineValid(t, uuid);
    AddMachineHosts(t, uuid);
  }

  lemma AddMachineValid(t: Tables, uuid: string)
    requires Valid(t) && uuid !in t.machines.Values
    ensures Valid(AddMachine(t, uuid))
  {
    BelowInsert(t.machines, t.next, uuid);
  }

  lemma AddMachineHosts(t: Tables, uuid: string)
    requires OwnersExist(t.interfaces, t.machines) && OwnersExist(t.disks, t.machines) && OwnersExist(t.schedules, t.machines)
    requires t.next !in t.machines
    ensures HostAt(AddMachine(t, uuid), t.next) == Host({}, multiset{}, multiset{}, multiset{})
    ensures forall o :: HostAt(AddMachine(t, uuid), o) == HostAt(t, o)
  {
    AtNobody(t.interfaces, t.next);
    AtNobody(t.disks, t.next);
    AtNobody(t.schedules, t.next);
    hide HostAt;
    NothingAttached(t, t.next);
    SameRows(t, AddMachine(t, uuid));
  }

  lemma NothingAttached(t: Tables, id: nat)
    requires At(t.interfaces, id) == map[] && At(t.disks, id) == map[] && At(t.schedules, id) == map[]
    requires At(Plugged(t.ports, t.chassis, t.interfaces), id) == map[]
    ensures HostAt(t, id) == Host({}, multiset{}, multiset{}, multiset{})
  {
    BagOfNothing(At(t.disks, id));
    BagOfNothing(At(t.schedules, id));
    BagOfNothing(At(Plugged(t.ports, t.chassis, t.interfaces), id));
    hide At, Plugged, Bag;
  }

  lemma SameRows(t: Tables, s: Tables)
    requires s.interfaces == t.interfaces && s.disks == t.disks && s.schedules == t.schedules
    requires s.ports == t.ports && s.chassis == t.chassis
    ensures forall o :: HostAt(s, o) == HostAt(t, o)
  {
    hide Bag, At, Plugged;
  }

  function AddDisk(t: Tables, id: nat, d: Disk): Tables {
    t.(disks := t.disks[t.next := Owned(id, d)], next := t.next + 1)
  }

  lemma AddDiskEffect(t: Tables, id: nat, d: Disk)
    requires Valid(t) && id in t.machines
    ensures Valid(AddDisk(t, id, d))
    ensures OnlyHost(t, AddDisk(t, id, d), id, HostAt(t, id).(disks := HostAt(t, id).disks + multiset{d}))
  {
    hide Bag, At, Plugged, OnlyHost;
    BelowInsert(t.disks, t.next, Owned(id, d));
    AtInsert(t.disks, t.next, id, d);
    HostsChange(t, AddDisk(t, id, d), id, HostAt(t, id).(disks := HostAt(t, id).disks + multiset{d}));
  }

  function AddSchedule(t: Tables, id: nat, r: Role): Tables {
    t.(schedules := t.schedules[t.next := Owned(id, r)], next := t.next + 1)
  }

  lemma AddScheduleEffect(t: Tables, id: nat, r: Role)
    requires Valid(t) && id in t.machines
    ensures Valid(AddSchedule(t, id, r))
    ensures OnlyHost(t, AddSchedule(t, id, r), id, HostAt(t, id).(roles := HostAt(t, id).roles + multiset{r}))
  {
    hide Bag, At, Plugged, OnlyHost;
    BelowInsert(t.schedules, t.next, Owned(id, r));
    AtInsert(t.schedules, t.next, id, r);
    HostsChange(t, AddSchedule(t, id, r), id, HostAt(t, id).(roles := HostAt(t, id).roles + multiset{r}));
  }

  function AddChassis(t: Tables, name: string, mac: string): Tables {
    t.(chassis := t.chassis[t.next := ChassisRow(name, mac)], next := t.next + 1)
  }

  lemma AddChassisEffect(t: Tables, name: string, mac: string)
    requires Valid(t) && name !in ChassisNames(t.chassis)
    ensures Valid(AddChassis(t, name, mac))
    ensures ChassisSeen(AddChassis(t, name, mac).chassis) == ChassisSeen(t.chassis)[name := mac]
    ensures HostsOf(AddChassis(t, name, mac)) == HostsOf(t)
  {
    hide Bag, At, Plugged, ChassisSeen, ChassisNames;
    BelowInsert(t.chassis, t.next, ChassisRow(name, mac));
    PluggedUnmoved(t, t.next, ChassisRow(name, mac));
    ChassisSeenInsert(t.chassis, t.next, name, mac);
  }

  lemma PluggedUnmoved(t: Tables, k: nat, c: ChassisRow)
    requires PortsResolve(t.ports, t.chassis, t.interfaces) && k !in t.chassis
    ensures Plugged(t.ports, t.chassis[k := c], t.interfaces) == Plugged(t.ports, t.chassis, t.interfaces)
  {}

  lemma ChassisSeenInsert(chassis: map<nat, ChassisRow>, k: nat, name: string, mac: string)
    requires NamesUnique(chassis) && k !in chassis && name !in ChassisNames(chassis)
    ensures NamesUnique(chassis[k := ChassisRow(name, mac)])
    ensures ChassisSeen(chassis[k := ChassisRow(name, mac)]) == ChassisSeen(chassis)[name := mac]
  {
    hide *;
    var more := chassis[k := ChassisRow(name, mac)];
    ChassisNamesInsert(chassis, k, name, mac);
    ChassisSeenRow(more, k);
    ChassisSeenKeys(chassis);
    ChassisSeenKeys(more);
    forall n | n in ChassisNames(chassis) ensures n in ChassisSeen(more) && ChassisSeen(more)[n] == ChassisSeen(chassis)[n] {
      ChassisSeenRow(chassis, ChassisNamed(chassis, n));
      ChassisSeenRow(more, ChassisNamed(chassis, n));
    }
  }

  lemma ChassisSeenKeys(chassis: map<nat, ChassisRow>)
    ensures ChassisSeen(chassis).Keys == ChassisNames(chassis)
  {}

  lemma ChassisSeenRow(chassis: map<nat, ChassisRow>, k: nat)
    requires NamesUnique(chassis) && k in chassis
    ensures chassis[k].name in ChassisSeen(chassis) && ChassisSeen(chassis)[chassis[k].name] == chassis[k].mac
  {
    assert chassis[k].name in ChassisNames(chassis);
    assert ChassisNamed(chassis, chassis[k].name) == k;
  }

  lemma ChassisNamesInsert(chassis: map<nat, ChassisRow>, k: nat, name: string, mac: string)
    requires NamesUnique(chassis) && k !in chassis && name !in ChassisNames(chassis)
    ensures NamesUnique(chassis[k := ChassisRow(name, mac)])
    ensures ChassisNames(chassis[k := ChassisRow(name, mac)]) == ChassisNames(chassis) + {name}
  {
    var more := chassis[k := ChassisRow(name, mac)];
    assert forall j :: j in chassis ==> chassis[j].name in ChassisNames(chassis);
    assert more[k].name == name;
    forall n | n in ChassisNames(chassis) ensures n in ChassisNames(more) {
      assert more[ChassisNamed(chassis, n)].name == n;
    }
  }

  function AddPort(t: Tables, mac: string, chassisId: nat, interfaceId: nat): Tables {
    t.(ports := t.ports[t.next := PortRow(mac, chassisId, interfaceId)], next := t.next + 1)
  }

  lemma AddPortEffect(t: Tables, mac: string, chassisId: nat, interfaceId: nat)
    requires Valid(t) && chassisId in t.chassis && interfaceId in t.interfaces
    ensures Valid(AddPort(t, mac, chassisId, interfaceId))
    ensures var id := t.interfaces[interfaceId].machineId;
      OnlyHost(t, AddPort(t, mac, chassisId, interfaceId), id,
               HostAt(t, id).(links := HostAt(t, id).links +
                                       multiset{Link(mac, t.chassis[chassisId].name, t.interfaces[interfaceId].value.mac)}))
  {
    hide Bag, At, Plugged, OnlyHost;
    BelowInsert(t.ports, t.next, PortRow(mac, chassisId, interfaceId));
    PluggedInsert(t, t.next, mac, chassisId, interfaceId);
    var id := t.interfaces[interfaceId].machineId;
    HostsChange(t, AddPort(t, mac, chassisId, interfaceId), id,
                HostAt(t, id).(links := HostAt(t, id).links +
                                       multiset{Link(mac, t.chassis[chassisId].name, t.interfaces[interfaceId].value.mac)}));
  }

  lemma PluggedInsert(t: Tables, k: nat, mac: string, chassisId: nat, interfaceId: nat)
    requires k !in t.ports && chassisId in t.chassis && interfaceId in t.interfaces
    ensures var id := t.interfaces[interfaceId].machineId;
      var link := Link(mac, t.chassis[chassisId].name, t.interfaces[interfaceId].value.mac);
      var before := Plugged(t.ports, t.chassis, t.interfaces);
      var after := Plugged(t.ports[k := PortRow(mac, chassisId, interfaceId)], t.chassis, t.interfaces);
      && Bag(At(after, id)) == Bag(At(before, id)) + multiset{link}
      && forall o :: o != id ==> At(after, o) == At(before, o)
  {
    var id := t.interfaces[interfaceId].machineId;
    var link := Link(mac, t.chassis[chassisId].name, t.interfaces[interfaceId].value.mac);
    var before := Plugged(t.ports, t.chassis, t.interfaces);
    assert Plugged(t.ports[k := PortRow(mac, chassisId, interfaceId)], t.chassis, t.interfaces) == before[k := Owned(id, link)];
    AtInsert(before, k, id, link);
  }

  /** The effect of `_delete_all_attached`: disks and interfaces of the machine go, and
      with an interface the ports plugged into it. */
  function WithoutAttached(t: Tables, id: nat): Tables {
    t.(disks := Without(t.disks, id),
       ports := WithoutPlugged(t.ports, t.interfaces, id),
       interfaces := Without(t.interfaces, id))
  }

  function WithoutPlugged(ports: map<nat, PortRow>, interfaces: map<nat, Owned<Nic>>, id: nat): map<nat, PortRow> {
    map k | k in ports && !(ports[k].interfaceId in interfaces && interfaces[ports[k].interfaceId].machineId == id) :: ports[k]
  }

  lemma WithoutAttachedEffect(t: Tables, id: nat)
    requires Valid(t) && id in t.machines
    ensures Valid(WithoutAttached(t, id))
    ensures At(WithoutAttached(t, id).interfaces, id) == map[]
    ensures OnlyHost(t, WithoutAttached(t, id), id, Host({}, multiset{}, multiset{}, HostAt(t, id).roles))
  {
    WithoutAttachedValid(t, id);
    hide HostAt, OnlyHost;
    WithoutAttachedHosts(t, id);
    HostsChange(t, WithoutAttached(t, id), id, Host({}, multiset{}, multiset{}, HostAt(t, id).roles));
  }

  lemma WithoutAttachedValid(t: Tables, id: nat)
    requires Valid(t)
    ensures Valid(WithoutAttached(t, id))
    ensures At(WithoutAttached(t, id).interfaces, id) == map[]
  {}

  lemma WithoutAttachedHosts(t: Tables, id: nat)
    requires PortsResolve(t.ports, t.chassis, t.interfaces)
    ensures HostAt(WithoutAttached(t, id), id) == Host({}, multiset{}, multiset{}, HostAt(t, id).roles)
    ensures forall o :: o != id ==> HostAt(WithoutAttached(t, id), o) == HostAt(t, o)
  {
    hide Bag;
    AtWithout(t.interfaces, id);
    AtWithout(t.disks, id);
    var plugged := Plugged(t.ports, t.chassis, t.interfaces);
    PluggedWithout(t.ports, t.chassis, t.interfaces, id);
    AtWithout(plugged, id);
    BagOfNothing(At(Without(t.disks, id), id));
    BagOfNothing(At(Without(plugged, id), id));
  }

  lemma PluggedWithout(ports: map<nat, PortRow>, chassis: map<nat, ChassisRow>, interfaces: map<nat, Owned<Nic>>, id: nat)
    requires PortsResolve(ports, chassis, interfaces)
    ensures Plugged(WithoutPlugged(ports, interfaces, id), chassis, Without(interfaces, id))
            == Without(Plugged(ports, chassis, interfaces), id)
  {}

  /** Flushing the pending interface rows of a machine that has none yet. */
  function WithInterfaces(t: Tables, rows: map<nat, Owned<Nic>>, next: nat): Tables {
    t.(interfaces := t.interfaces + rows, next := next)
  }

  /** Fresh rows of machine `id`, distinct among themselves and from what is stored. */
  ghost predicate Insertable(t: Tables, id: nat, rows: map<nat, Owned<Nic>>, next: nat) {
    && t.next <= next
    && (forall k :: k in rows ==> t.next <= k < next && rows[k].machineId == id)
    && MacsUnique(rows)
    && OneBootEach(rows)
    && (forall a, b :: a in rows && b in t.interfaces ==> rows[a].value.mac != t.interfaces[b].value.mac)
  }

  lemma WithInterfacesEffect(t: Tables, id: nat, rows: map<nat, Owned<Nic>>, next: nat)
    requires Valid(t) && id in t.machines && At(t.interfaces, id) == map[] && Insertable(t, id, rows, next)
    ensures Valid(WithInterfaces(t, rows, next))
    ensures OnlyHost(t, WithInterfaces(t, rows, next), id,
                     HostAt(t, id).(nics := set k | k in rows :: rows[k].value))
  {
    WithInterfacesValid(t, id, rows, next);
    AtMerged(t.interfaces, rows, id);
    PluggedMerged(t, rows);
    hide Bag, At, Plugged, OnlyHost, Insertable;
    HostsChange(t, WithInterfaces(t, rows, next), id, HostAt(t, id).(nics := set k | k in rows :: rows[k].value));
  }

  lemma WithInterfacesValid(t: Tables, id: nat, rows: map<nat, Owned<Nic>>, next: nat)
    requires Valid(t) && id in t.machines && At(t.interfaces, id) == map[] && Insertable(t, id, rows, next)
    ensures Valid(WithInterfaces(t, rows, next))
    ensures forall k :: k in t.interfaces ==> k !in rows && t.interfaces[k].machineId != id
  {
    assert forall k :: k in t.interfaces ==> k !in At(t.interfaces, id) && t.interfaces[k].machineId != id;
    var merged := t.interfaces + rows;
    assert MacsUnique(merged) && OneBootEach(merged) && OwnersExist(merged, t.machines) && Below(merged, next);
  }

  lemma AtMerged(stored: map<nat, Owned<Nic>>, rows: map<nat, Owned<Nic>>, id: nat)
    requires forall k :: k in stored ==> k !in rows && stored[k].machineId != id
    requires forall k :: k in rows ==> rows[k].machineId == id
    ensures At(stored + rows, id).Values == set k | k in rows :: rows[k].value
    ensures forall o :: o != id ==> At(stored + rows, o) == At(stored, o)
  {
    var merged := At(stored + rows, id);
    assert forall k :: k in merged <==> k in rows;
    assert forall k :: k in rows ==> merged[k] == rows[k].value;
    forall n ensures n in merged.Values <==> exists k :: k in rows && rows[k].value == n {
      if k :| k in rows && rows[k].value == n { assert merged[k] == n; }
    }
  }

  lemma PluggedMerged(t: Tables, rows: map<nat, Owned<Nic>>)
    requires PortsResolve(t.ports, t.chassis, t.interfaces)
    requires forall k :: k in t.interfaces ==> k !in rows
    ensures Plugged(t.ports, t.chassis, t.interfaces + rows) == Plugged(t.ports, t.chassis, t.interfaces)
  {
    var merged := t.interfaces + rows;
    assert forall k :: k in t.ports ==> t.ports[k].interfaceId in merged && merged[t.ports[k].interfaceId] == t.interfaces[t.ports[k].interfaceId];
    hide PortsResolve;
  }
}
