/** `machine_discovery.py`: storing a discovery report. The report is the reference of
    reality, so everything attached to the machine is dropped and created again, in one
    transaction. */
module Discovery {
  import opened Prelude
  import opened Machines
  import opened Database

  datatype Rejection = MissingKeys | InvalidColumn | DuplicateMac | UnknownInterface

  method FindMachine(t: Tables, uuid: string) returns (r: Option<nat>)
    ensures r.Some? ==> r.value in t.machines && t.machines[r.value] == uuid
    ensures r.None? ==> uuid !in t.machines.Values
  {
    if id :| id in t.machines && t.machines[id] == uuid {
      r := Some(id);
    } else {
      r := None;
    }
  }

  method DeleteAllAttached(t: Tables, id: nat) returns (s: Tables)
    requires PortsResolve(t.ports, t.chassis, t.interfaces)
    ensures s == WithoutAttached(t, id)
  {
    s := t.(disks := Without(t.disks, id));
    var attached := set k | k in t.interfaces && t.interfaces[k].machineId == id;
    var todo := attached;
    while todo != {}
      invariant todo <= attached
      invariant s == t.(disks := Without(t.disks, id),
                        ports := map k | k in t.ports && t.ports[k].interfaceId !in attached - todo :: t.ports[k],
                        interfaces := t.interfaces - (attached - todo))
      decreases todo
    {
      var i :| i in todo;
      s := s.(ports := map k | k in s.ports && s.ports[k].interfaceId != i :: s.ports[k],
              interfaces := s.interfaces - {i});
      todo := todo - {i};
    }
    assert t.interfaces - attached == Without(t.interfaces, id);
  }

  method InsertDisks(t: Tables, id: nat, disks: seq<Disk>) returns (s: Tables)
    requires Valid(t) && id in t.machines
    ensures Valid(s) && s.interfaces == t.interfaces && s.schedules == t.schedules && s.chassis == t.chassis
    ensures Became(t, s, id, HostAt(t, id).(disks := HostAt(t, id).disks + multiset(disks)))
  {
    hide HostAt, Valid, HostsOf, Became;
    s := t;
    ghost var h := HostAt(t, id);
    BecameItself(t, id);
    assert h.(disks := h.disks + multiset(disks[..0])) == h;
    for k := 0 to |disks|
      invariant Valid(s) && s.interfaces == t.interfaces && s.schedules == t.schedules && s.chassis == t.chassis
      invariant s.machines == t.machines
      invariant Became(t, s, id, h.(disks := h.disks + multiset(disks[..k])))
    {
      BecameHost(t, s, id, h.(disks := h.disks + multiset(disks[..k])));
      AddDiskBecame(s, id, disks[k]);
      assert disks[..k + 1] == disks[..k] + [disks[k]];
      ghost var g := h.(disks := h.disks + multiset(disks[..k + 1]));
      assert HostAt(s, id).(disks := HostAt(s, id).disks + multiset{disks[k]}) == g;
      BecameThen(t, s, AddDisk(s, id, disks[k]), id, HostAt(s, id), g);
      s := AddDisk(s, id, disks[k]);
    }
    assert disks[..|disks|] == disks;
  }

  lemma AddDiskBecame(t: Tables, id: nat, d: Disk)
    requires Valid(t) && id in t.machines
    ensures Valid(AddDisk(t, id, d))
    ensures Became(t, AddDisk(t, id, d), id, HostAt(t, id).(disks := HostAt(t, id).disks + multiset{d}))
  {
    AddDiskEffect(t, id, d);
  }

  // ---------- interfaces ----------

  /** Rows and names of the first k listed interfaces; row ids leave gaps where an
      interface has no MAC. */
  ghost predicate Staged(first: nat, id: nat, p: Post, k: nat, rows: map<nat, Owned<Nic>>, named: map<string, nat>)
    requires p.Post? && k <= |p.nics|
  {
    && (forall i :: i in rows <==> first <= i < first + k && p.nics[i - first].mac != "")
    && (forall i :: i in rows ==> rows[i] == Owned(id, NicOf(p.nics[i - first], p.bootMac)))
    && (forall n :: n in named ==> named[n] in rows && MacNamed(p.nics[..k], n) == Some(rows[named[n]].value.mac))
    && (forall n :: n !in named ==> MacNamed(p.nics[..k], n) == None)
  }

  lemma StagedSkip(first: nat, id: nat, p: Post, k: nat, rows: map<nat, Owned<Nic>>, named: map<string, nat>)
    requires p.Post? && k < |p.nics| && Staged(first, id, p, k, rows, named) && p.nics[k].mac == ""
    ensures Staged(first, id, p, k + 1, rows, named)
  {
    assert p.nics[..k + 1][..k] == p.nics[..k];
  }

  lemma StagedAdd(first: nat, id: nat, p: Post, k: nat, rows: map<nat, Owned<Nic>>, named: map<string, nat>)
    requires p.Post? && k < |p.nics| && Staged(first, id, p, k, rows, named) && p.nics[k].mac != ""
    ensures Staged(first, id, p, k + 1, rows[first + k := Owned(id, NicOf(p.nics[k], p.bootMac))],
                   named[p.nics[k].name := first + k])
  {
    assert p.nics[..k + 1][..k] == p.nics[..k];
    var more := named[p.nics[k].name := first + k];
    forall n ensures MacNamed(p.nics[..k + 1], n) ==
                     if n == p.nics[k].name then Some(p.nics[k].mac) else MacNamed(p.nics[..k], n)
    {}
  }

  method StageInterfaces(first: nat, id: nat, p: Post)
    returns (r: Option<(map<nat, Owned<Nic>>, map<string, nat>)>)
    requires p.Post?
    ensures r.Some? <==> forall n :: n in p.nics && n.mac != "" ==> WellFormedNic(n)
    ensures r.Some? ==> Staged(first, id, p, |p.nics|, r.value.0, r.value.1)
  {
    hide Staged, WellFormedNic, NicOf;
    var rows: map<nat, Owned<Nic>> := map[];
    var named: map<string, nat> := map[];
    StagedNothing(first, id, p);
    for k := 0 to |p.nics|
      invariant Staged(first, id, p, k, rows, named)
      invariant forall i :: 0 <= i < k && p.nics[i].mac != "" ==> WellFormedNic(p.nics[i])
    {
      var n := p.nics[k];
      if n.mac != "" {
        if !WellFormedNic(n) {
          return None;
        }
        StagedAdd(first, id, p, k, rows, named);
        rows := rows[first + k := Owned(id, NicOf(n, p.bootMac))];
        named := named[n.name := first + k];
      } else {
        StagedSkip(first, id, p, k, rows, named);
      }
    }
    r := Some((rows, named));
  }

  lemma StagedNothing(first: nat, id: nat, p: Post)
    requires p.Post?
    ensures Staged(first, id, p, 0, map[], map[])
  {}

  /** The unique index on the MAC column. */
  predicate Clash(stored: map<nat, Owned<Nic>>, rows: map<nat, Owned<Nic>>) {
    || (exists a, b :: a in rows && b in rows && a != b && rows[a].value.mac == rows[b].value.mac)
    || (exists a, b :: a in rows && b in stored && rows[a].value.mac == stored[b].value.mac)
  }

  lemma StagedDistinct(first: nat, id: nat, p: Post, rows: map<nat, Owned<Nic>>, named: map<string, nat>)
    requires p.Post? && Staged(first, id, p, |p.nics|, rows, named)
    ensures MacsDistinct(p.nics) <==> MacsUnique(rows)
    ensures MacsUnique(rows) ==> OneBootEach(rows)
    ensures (set k | k in rows :: rows[k].value) == NicsOf(p.nics, p.bootMac)
    ensures forall m :: m in MacsOf(p.nics) <==> exists k :: k in rows && rows[k].value.mac == m
  {
    forall i, j | 0 <= i < j < |p.nics| && p.nics[i].mac != "" && p.nics[i].mac == p.nics[j].mac
      ensures !MacsUnique(rows)
    {
      assert first + i in rows && first + j in rows;
    }
    forall n | n in NicsOf(p.nics, p.bootMac) ensures exists k :: k in rows && rows[k].value == n {
      var q :| q in p.nics && q.mac != "" && n == NicOf(q, p.bootMac);
      var i :| 0 <= i < |p.nics| && p.nics[i] == q;
      assert first + i in rows;
    }
    forall m | m in MacsOf(p.nics) ensures exists k :: k in rows && rows[k].value.mac == m {
      var q :| q in p.nics && q.mac != "" && m == q.mac;
      var i :| 0 <= i < |p.nics| && p.nics[i] == q;
      assert first + i in rows;
    }
  }

  ghost predicate Stored(interfaces: map<nat, Owned<Nic>>, mac: string) {
    exists b :: b in interfaces && interfaces[b].value.mac == mac
  }

  /** The stored MACs, once the machine's own rows are gone, are those other machines own. */
  lemma StoredMacs(f: Fleet, t: Tables, id: nat, m: string)
    requires Valid(t) && id in t.machines && At(t.interfaces, id) == map[]
    requires forall u :: u != t.machines[id] ==> SameHost(f, View(t), u)
    ensures Stored(t.interfaces, m) <==> OwnedElsewhere(f, t.machines[id], m)
  {
    if Stored(t.interfaces, m) {
      var b :| b in t.interfaces && t.interfaces[b].value.mac == m;
      var o := t.interfaces[b].machineId;
      assert o != id by { assert o == id ==> b in At(t.interfaces, id); }
      OwnsRow(t, b);
      assert t.machines[o] != t.machines[id];
      assert SameHost(f, View(t), t.machines[o]);
    }
    if OwnedElsewhere(f, t.machines[id], m) {
      var u :| u in f.hosts && u != t.machines[id] && Owns(f.hosts[u], m);
      assert SameHost(f, View(t), u);
      var n :| n in View(t).hosts[u].nics && n.mac == m;
      var k := RowOfNic(t, u, n);
    }
  }

  lemma OwnsRow(t: Tables, b: nat)
    requires Valid(t) && b in t.interfaces
    ensures var u := t.machines[t.interfaces[b].machineId];
      u in View(t).hosts && Owns(View(t).hosts[u], t.interfaces[b].value.mac)
  {
    var o := t.interfaces[b].machineId;
    ViewHost(t, o);
    assert At(t.interfaces, o)[b] == t.interfaces[b].value;
    assert t.interfaces[b].value in HostAt(t, o).nics;
  }

  // ---------- LLDP ----------

  lemma {:induction false} LinksPrefix(known: map<string, string>, nics: seq<PostedNic>, links: seq<PostedLink>, k: nat)
    requires k <= |links| && LinksAcceptable(known, nics, links)
    ensures LinksAcceptable(known, nics, links[..k])
  {
    if k < |links| {
      LinksPrefix(known, nics, links[..|links| - 1], k);
      assert links[..|links| - 1][..k] == links[..k];
    } else {
      assert links[..k] == links;
    }
  }

  lemma LinksStep(known: map<string, string>, nics: seq<PostedNic>, links: seq<PostedLink>, k: nat)
    requires k < |links| && LinksAcceptable(known, nics, links[..k])
    ensures var l := links[k];
      var before := ChassisAfter(known, links[..k]);
      var mac := MacNamed(nics, l.nicName);
      && (LinksAcceptable(known, nics, links[..k + 1]) <==> mac.Some? && (l.chassisName in before || IsMac(l.chassisId)))
      && ChassisAfter(known, links[..k + 1]) == (if l.chassisName in before then before else before[l.chassisName := l.chassisId])
      && (mac.Some? ==> LinksOf(nics, links[..k + 1]) ==
                        LinksOf(nics, links[..k]) + multiset{Link(l.portId, l.chassisName, mac.value)})
    ensures !LinksAcceptable(known, nics, links[..k + 1]) ==> !LinksAcceptable(known, nics, links)
  {
    var upTo := links[..k + 1];
    assert upTo[|upTo| - 1] == links[k] && upTo[..|upTo| - 1] == links[..k];
    if LinksAcceptable(known, nics, links) { LinksPrefix(known, nics, links, k + 1); }
  }

  /** The chassis of that name, created with the reported MAC if there was none. */
  method FindOrAddChassis(t: Tables, name: string, mac: string) returns (r: Option<(Tables, nat)>)
    requires Valid(t)
    ensures r.Some? <==> name in ChassisSeen(t.chassis) || IsMac(mac)
    ensures r.Some? ==>
      var (s, c) := r.value;
      && Valid(s) && s.machines == t.machines && s.interfaces == t.interfaces && s.schedules == t.schedules
      && HostsOf(s) == HostsOf(t)
      && c in s.chassis && s.chassis[c].name == name
      && ChassisSeen(s.chassis) == (if name in ChassisSeen(t.chassis) then ChassisSeen(t.chassis) else ChassisSeen(t.chassis)[name := mac])
  {
    hide HostAt, Valid;
    if c :| c in t.chassis && t.chassis[c].name == name {
      assert name in ChassisNames(t.chassis);
      r := Some((t, c));
    } else {
      assert name !in ChassisNames(t.chassis);
      if !IsMac(mac) {
        return None;
      }
      AddChassisEffect(t, name, mac);
      r := Some((AddChassis(t, name, mac), t.next));
    }
  }

  /** Where the loop over the LLDP links stands after k of them. */
  ghost predicate LinkedUpTo(t: Tables, s: Tables, id: nat, p: Post, k: nat)
    requires p.Post? && k <= |p.links|
  {
    && Valid(s) && s.machines == t.machines && s.schedules == t.schedules && s.interfaces == t.interfaces
    && Became(t, s, id, HostAt(t, id).(links := LinksOf(p.nics, p.links[..k])))
    && ChassisSeen(s.chassis) == ChassisAfter(ChassisSeen(t.chassis), p.links[..k])
    && LinksAcceptable(ChassisSeen(t.chassis), p.nics, p.links[..k])
  }

  lemma LinkedNothing(t: Tables, id: nat, p: Post)
    requires Valid(t) && id in t.machines && p.Post? && HostAt(t, id).links == multiset{}
    ensures LinkedUpTo(t, t, id, p, 0)
  {
    hide HostAt, Valid, ChassisSeen, HostsOf, Became;
    BecameItself(t, id);
    assert HostAt(t, id).(links := LinksOf(p.nics, p.links[..0])) == HostAt(t, id);
  }

  lemma LinkedEverything(t: Tables, s: Tables, id: nat, p: Post)
    requires p.Post? && LinkedUpTo(t, s, id, p, |p.links|)
    ensures LinksAcceptable(ChassisSeen(t.chassis), p.nics, p.links) && Valid(s) && s.schedules == t.schedules
    ensures Became(t, s, id, HostAt(t, id).(links := LinksOf(p.nics, p.links)))
    ensures ChassisSeen(s.chassis) == ChassisAfter(ChassisSeen(t.chassis), p.links)
  {
    assert p.links[..|p.links|] == p.links;
    hide HostAt, Valid, ChassisSeen, HostsOf, Became, LinksAcceptable, ChassisAfter, LinksOf;
  }

  lemma LinkedValid(t: Tables, s: Tables, id: nat, p: Post, k: nat)
    requires p.Post? && k <= |p.links| && LinkedUpTo(t, s, id, p, k)
    ensures Valid(s) && s.interfaces == t.interfaces
  {}

  /** A link is refused for an unknown interface or a chassis that would be new and has no MAC. */
  lemma LinkRefused(t: Tables, s: Tables, id: nat, p: Post, named: map<string, nat>, k: nat)
    requires p.Post? && k < |p.links| && LinkedUpTo(t, s, id, p, k) && NamesResolve(t.interfaces, id, p, named)
    ensures !(p.links[k].chassisName in ChassisSeen(s.chassis) || IsMac(p.links[k].chassisId)) || p.links[k].nicName !in named
            ==> !LinksAcceptable(ChassisSeen(t.chassis), p.nics, p.links)
  {
    hide HostAt, Valid, ChassisSeen, HostsOf, Became, LinksAcceptable, ChassisAfter, LinksOf, MacNamed, IsMac;
    LinksStep(ChassisSeen(t.chassis), p.nics, p.links, k);
  }

  lemma LinkGrows(t: Tables, s: Tables, w: Tables, c: nat, id: nat, p: Post, named: map<string, nat>, k: nat)
    requires p.Post? && k < |p.links| && LinkedUpTo(t, s, id, p, k) && id in t.machines
    requires NamesResolve(t.interfaces, id, p, named) && p.links[k].nicName in named
    requires p.links[k].chassisName in ChassisSeen(s.chassis) || IsMac(p.links[k].chassisId)
    requires Valid(w) && w.machines == s.machines && w.interfaces == s.interfaces && w.schedules == s.schedules && HostsOf(w) == HostsOf(s)
    requires c in w.chassis && w.chassis[c].name == p.links[k].chassisName
    requires ChassisSeen(w.chassis) == (if p.links[k].chassisName in ChassisSeen(s.chassis) then ChassisSeen(s.chassis)
                                        else ChassisSeen(s.chassis)[p.links[k].chassisName := p.links[k].chassisId])
    requires named[p.links[k].nicName] in w.interfaces
    ensures LinkedUpTo(t, AddPort(w, p.links[k].portId, c, named[p.links[k].nicName]), id, p, k + 1)
  {
    hide HostAt, Valid, ChassisSeen, HostsOf, Became, LinksAcceptable, ChassisAfter, LinksOf, MacNamed, IsMac;
    var l := p.links[k];
    var g := HostAt(t, id).(links := LinksOf(p.nics, p.links[..k]));
    LinksStep(ChassisSeen(t.chassis), p.nics, p.links, k);
    BecameSame(t, s, w, id, g);
    BecameHost(t, w, id, g);
    AddPortBecame(w, l.portId, c, named[l.nicName]);
    BecameThen(t, w, AddPort(w, l.portId, c, named[l.nicName]), id, g, HostAt(t, id).(links := LinksOf(p.nics, p.links[..k + 1])));
  }

  method InsertLinks(t: Tables, id: nat, p: Post, named: map<string, nat>) returns (r: Result<Tables, Rejection>)
    requires Valid(t) && id in t.machines && p.Post?
    requires HostAt(t, id).links == multiset{}
    requires NamesResolve(t.interfaces, id, p, named)
    ensures r.Ok? <==> LinksAcceptable(ChassisSeen(t.chassis), p.nics, p.links)
    ensures r.Ok? ==> Valid(r.value) && r.value.schedules == t.schedules
    ensures r.Ok? ==> Became(t, r.value, id, HostAt(t, id).(links := LinksOf(p.nics, p.links)))
    ensures r.Ok? ==> ChassisSeen(r.value.chassis) == ChassisAfter(ChassisSeen(t.chassis), p.links)
  {
    hide *;
    var s := t;
    LinkedNothing(t, id, p);
    for k := 0 to |p.links|
      invariant LinkedUpTo(t, s, id, p, k)
    {
      var l := p.links[k];
      LinkedValid(t, s, id, p, k);
      LinkRefused(t, s, id, p, named, k);
      var found := FindOrAddChassis(s, l.chassisName, l.chassisId);
      if found.None? {
        return Err(InvalidColumn);
      }
      if l.nicName !in named {
        return Err(UnknownInterface);
      }
      NamedStored(t.interfaces, id, p, named, l.nicName);
      var (withChassis, c) := found.value;
      LinkGrows(t, s, withChassis, c, id, p, named, k);
      s := AddPort(withChassis, l.portId, c, named[l.nicName]);
    }
    LinkedEverything(t, s, id, p);
    r := Ok(s);
  }

  lemma NamedStored(interfaces: map<nat, Owned<Nic>>, id: nat, p: Post, named: map<string, nat>, n: string)
    requires p.Post? && NamesResolve(interfaces, id, p, named) && n in named
    ensures named[n] in interfaces
  {}

  lemma BecameSame(t: Tables, s: Tables, r: Tables, id: nat, h: Host)
    requires Became(t, s, id, h) && r.machines == s.machines && HostsOf(r) == HostsOf(s)
    ensures Became(t, r, id, h)
  {}

  lemma AddPortBecame(t: Tables, mac: string, chassisId: nat, interfaceId: nat)
    requires Valid(t) && chassisId in t.chassis && interfaceId in t.interfaces
    ensures Valid(AddPort(t, mac, chassisId, interfaceId))
    ensures var id := t.interfaces[interfaceId].machineId;
      Became(t, AddPort(t, mac, chassisId, interfaceId), id,
             HostAt(t, id).(links := HostAt(t, id).links +
                                     multiset{Link(mac, t.chassis[chassisId].name, t.interfaces[interfaceId].value.mac)}))
  {
    hide HostAt;
    AddPortEffect(t, mac, chassisId, interfaceId);
  }

  // ---------- the request ----------

  /** The machine row, new or found and stripped of everything attached. */
  method Enroll(t: Tables, uuid: string) returns (r: Option<(Tables, nat, bool)>)
    requires Valid(t)
    ensures r.Some? <==> uuid in View(t).hosts || IsUuid(uuid)
    ensures r.Some? ==>
      var (s, id, isNew) := r.value;
      && isNew == (uuid !in View(t).hosts)
      && Enrolled(View(t), s, id, uuid)
      && s.schedules == t.schedules
      && (forall m :: m in t.machines ==> m in s.machines && s.machines[m] == t.machines[m])
  {
    hide *;
    ViewKeys(t);
    ValidPorts(t);
    var known := FindMachine(t, uuid);
    if known.Some? {
      var id := known.value;
      EnrollKnown(t, id);
      var s := DeleteAllAttached(t, id);
      r := Some((s, id, false));
    } else if !IsUuid(uuid) {
      r := None;
    } else {
      EnrollNew(t, uuid);
      r := Some((AddMachine(t, uuid), t.next, true));
    }
  }

  lemma ValidPorts(t: Tables)
    requires Valid(t)
    ensures PortsResolve(t.ports, t.chassis, t.interfaces)
  {}

  lemma EnrollKnown(t: Tables, id: nat)
    requires Valid(t) && id in t.machines
    ensures t.machines[id] in View(t).hosts
    ensures Enrolled(View(t), WithoutAttached(t, id), id, t.machines[id])
    ensures WithoutAttached(t, id).machines == t.machines && WithoutAttached(t, id).schedules == t.schedules
  {
    hide HostAt, HostsOf, ChassisSeen;
    ViewHost(t, id);
    WithoutAttachedEffect(t, id);
    OnlyHostView(t, WithoutAttached(t, id), id, Host({}, multiset{}, multiset{}, HostAt(t, id).roles));
    ViewHost(WithoutAttached(t, id), id);
  }

  lemma EnrollNew(t: Tables, uuid: string)
    requires Valid(t) && uuid !in View(t).hosts && IsUuid(uuid)
    ensures Enrolled(View(t), AddMachine(t, uuid), t.next, uuid)
    ensures AddMachine(t, uuid).schedules == t.schedules
    ensures forall m :: m in t.machines ==> m in AddMachine(t, uuid).machines && AddMachine(t, uuid).machines[m] == t.machines[m]
  {
    hide HostAt, HostsOf, ChassisSeen, IsUuid;
    ViewKeys(t);
    var bare := Host({}, multiset{}, multiset{}, multiset{});
    AddMachineEffect(t, uuid);
    HostsOfKeys(t);
    ByUuidInsert(t.machines, HostsOf(t), t.next, uuid, bare);
    ViewHost(AddMachine(t, uuid), t.next);
    assert At(AddMachine(t, uuid).interfaces, t.next) == map[];
  }

  lemma ClashSplit(interfaces: map<nat, Owned<Nic>>, rows: map<nat, Owned<Nic>>)
    ensures Clash(interfaces, rows) <==> !MacsUnique(rows) || exists k :: k in rows && Stored(interfaces, rows[k].value.mac)
  {}

  /** The unique index refuses exactly the MACs the specification refuses. */
  lemma FlushFits(f: Fleet, t: Tables, id: nat, p: Post, rows: map<nat, Owned<Nic>>, named: map<string, nat>)
    requires p.Post? && Valid(t) && id in t.machines && t.machines[id] == p.uuid && At(t.interfaces, id) == map[]
    requires forall u :: u != p.uuid ==> SameHost(f, View(t), u)
    requires Staged(t.next, id, p, |p.nics|, rows, named)
    ensures Clash(t.interfaces, rows) <==>
            !(MacsDistinct(p.nics) && forall mac :: mac in MacsOf(p.nics) ==> !OwnedElsewhere(f, p.uuid, mac))
  {
    hide Staged, View, Valid, Owns, MacsDistinct, NicsOf, MacsOf, Clash, MacsUnique, OneBootEach, Stored, OwnedElsewhere, SameHost;
    StagedDistinct(t.next, id, p, rows, named);
    ClashSplit(t.interfaces, rows);
    forall m ensures Stored(t.interfaces, m) <==> OwnedElsewhere(f, p.uuid, m) {
      StoredMacs(f, t, id, m);
    }
  }

  lemma Flushed(t: Tables, id: nat, p: Post, rows: map<nat, Owned<Nic>>, named: map<string, nat>)
    requires p.Post? && Valid(t) && id in t.machines && At(t.interfaces, id) == map[]
    requires Staged(t.next, id, p, |p.nics|, rows, named) && !Clash(t.interfaces, rows)
    ensures var q := WithInterfaces(t, rows, t.next + |p.nics|);
      && Valid(q)
      && Became(t, q, id, HostAt(t, id).(nics := NicsOf(p.nics, p.bootMac)))
      && NamesResolve(q.interfaces, id, p, named)
  {
    hide HostAt, HostsOf, Insertable, Valid, NicsOf, Staged, Clash, At, NamesResolve;
    StagedInsertable(t, id, p, rows, named);
    StagedDistinct(t.next, id, p, rows, named);
    NamesResolveMerged(t.interfaces, rows, id, p, named);
    WithInterfacesEffect(t, id, rows, t.next + |p.nics|);
  }

  lemma NamesResolveMerged(stored: map<nat, Owned<Nic>>, rows: map<nat, Owned<Nic>>, id: nat, p: Post, named: map<string, nat>)
    requires p.Post? && NamesResolve(rows, id, p, named)
    ensures NamesResolve(stored + rows, id, p, named)
  {
    hide MacNamed;
  }

  lemma StagedInsertable(t: Tables, id: nat, p: Post, rows: map<nat, Owned<Nic>>, named: map<string, nat>)
    requires p.Post? && Staged(t.next, id, p, |p.nics|, rows, named) && !Clash(t.interfaces, rows)
    ensures Insertable(t, id, rows, t.next + |p.nics|)
    ensures NamesResolve(rows, id, p, named)
  {
    StagedDistinct(t.next, id, p, rows, named);
    assert p.nics[..|p.nics|] == p.nics;
    hide MacNamed;
  }

  /** The dictionary of names leads to the machine's interface rows. */
  ghost predicate NamesResolve(interfaces: map<nat, Owned<Nic>>, id: nat, p: Post, named: map<string, nat>)
    requires p.Post?
  {
    && (forall n :: n in named ==> named[n] in interfaces && interfaces[named[n]].machineId == id &&
                                   MacNamed(p.nics, n) == Some(interfaces[named[n]].value.mac))
    && (forall n :: n !in named ==> MacNamed(p.nics, n) == None)
  }

  lemma ViewOthers(f: Fleet, t: Tables, s: Tables, id: nat, h: Host, uuid: string, bare: Host)
    requires UuidsUnique(t.machines) && id in t.machines && t.machines[id] == uuid && s.chassis == t.chassis
    requires View(t) == f.(hosts := f.hosts[uuid := bare]) && Became(t, s, id, h)
    ensures forall u :: u != uuid ==> SameHost(f, View(s), u)
    ensures ChassisSeen(s.chassis) == f.chassis
  {
    hide HostsOf, ChassisSeen, HostAt, Became, View, UuidsUnique;
    BecameView(t, s, id, h);
  }

  lemma BecameFinal(f: Fleet, t: Tables, s: Tables, id: nat, h: Host, uuid: string, bare: Host)
    requires UuidsUnique(t.machines) && id in t.machines && t.machines[id] == uuid
    requires View(t) == f.(hosts := f.hosts[uuid := bare]) && Became(t, s, id, h)
    ensures View(s) == Fleet(f.hosts[uuid := h], ChassisSeen(s.chassis))
  {
    hide HostsOf, ChassisSeen, HostAt, Became, View, UuidsUnique;
    BecameView(t, s, id, h);
    assert View(t).hosts[uuid := h] == f.hosts[uuid := h];
  }

  /** When a report is taken, and what it then does, with the definitions spelled out. */
  lemma Verdict(f: Fleet, p: Post)
    ensures p.Incomplete? ==> !Acceptable(f, p)
    ensures p.Post? ==> (Acceptable(f, p) <==>
      && (p.uuid in f.hosts || IsUuid(p.uuid))
      && (forall n :: n in p.nics && n.mac != "" ==> WellFormedNic(n))
      && (MacsDistinct(p.nics) && forall mac :: mac in MacsOf(p.nics) ==> !OwnedElsewhere(f, p.uuid, mac))
      && LinksAcceptable(f.chassis, p.nics, p.links))
    ensures !Acceptable(f, p) ==> Discover(f, p) == f
    ensures Acceptable(f, p) ==>
      Discover(f, p) == Fleet(f.hosts[p.uuid := Stated(p, RolesHeld(f, p.uuid))], ChassisAfter(f.chassis, p.links))
  {}

  ghost function Bare(f: Fleet, uuid: string): Host {
    Host({}, multiset{}, multiset{}, RolesHeld(f, uuid))
  }

  /** The machine is enrolled in t and nothing else differs from what the fleet f says. */
  ghost predicate Enrolled(f: Fleet, t: Tables, id: nat, uuid: string) {
    && Valid(t) && id in t.machines && t.machines[id] == uuid && At(t.interfaces, id) == map[]
    && HostAt(t, id) == Bare(f, uuid)
    && View(t) == f.(hosts := f.hosts[uuid := Bare(f, uuid)])
  }

  lemma DisksStored(f: Fleet, t: Tables, s: Tables, id: nat, p: Post)
    requires p.Post? && Enrolled(f, t, id, p.uuid) && s.chassis == t.chassis && s.interfaces == t.interfaces
    requires Became(t, s, id, HostAt(t, id).(disks := HostAt(t, id).disks + multiset(DisksOf(p))))
    ensures id in s.machines && s.machines[id] == p.uuid && At(s.interfaces, id) == map[]
    ensures forall u :: u != p.uuid ==> SameHost(f, View(s), u)
    ensures ChassisSeen(s.chassis) == f.chassis
    ensures HostAt(s, id) == Bare(f, p.uuid).(disks := multiset(DisksOf(p)))
  {
    hide HostAt, HostsOf, Valid, View, UuidsUnique, ChassisSeen, At, RolesHeld, SameHost, Became;
    ValidUuids(t);
    BecameMachines(t, s, id, HostAt(t, id).(disks := HostAt(t, id).disks + multiset(DisksOf(p))));
    var h := Bare(f, p.uuid).(disks := multiset(DisksOf(p)));
    assert HostAt(t, id).disks + multiset(DisksOf(p)) == multiset(DisksOf(p));
    ViewOthers(f, t, s, id, h, p.uuid, Bare(f, p.uuid));
    BecameHost(t, s, id, h);
  }

  lemma BecameMachines(t: Tables, s: Tables, id: nat, h: Host)
    requires Became(t, s, id, h)
    ensures s.machines == t.machines
  {}

  lemma InterfacesStored(f: Fleet, t: Tables, s: Tables, q: Tables, id: nat, p: Post)
    requires p.Post? && id in t.machines
    requires HostAt(t, id) == Bare(f, p.uuid) && HostAt(s, id) == Bare(f, p.uuid).(disks := multiset(DisksOf(p)))
    requires Became(t, s, id, HostAt(t, id).(disks := HostAt(t, id).disks + multiset(DisksOf(p))))
    requires Became(s, q, id, HostAt(s, id).(nics := NicsOf(p.nics, p.bootMac)))
    ensures id in q.machines && HostAt(q, id).links == multiset{}
    ensures Became(t, q, id, Host(NicsOf(p.nics, p.bootMac), multiset(DisksOf(p)), multiset{}, RolesHeld(f, p.uuid)))
  {
    hide HostAt, HostsOf, RolesHeld, NicsOf;
    var h := Bare(f, p.uuid).(disks := multiset(DisksOf(p)));
    assert HostAt(t, id).disks + multiset(DisksOf(p)) == multiset(DisksOf(p));
    BecameThen(t, s, q, id, h, h.(nics := NicsOf(p.nics, p.bootMac)));
    BecameHost(t, q, id, h.(nics := NicsOf(p.nics, p.bootMac)));
  }

  lemma LinksStored(f: Fleet, t: Tables, q: Tables, s: Tables, id: nat, p: Post)
    requires p.Post? && Enrolled(f, t, id, p.uuid)
    requires Became(t, q, id, Host(NicsOf(p.nics, p.bootMac), multiset(DisksOf(p)), multiset{}, RolesHeld(f, p.uuid)))
    requires Became(q, s, id, HostAt(q, id).(links := LinksOf(p.nics, p.links)))
    ensures View(s) == Fleet(f.hosts[p.uuid := Stated(p, RolesHeld(f, p.uuid))], ChassisSeen(s.chassis))
  {
    ValidUuids(t);
    hide HostAt, HostsOf, View, UuidsUnique, ChassisSeen, At, RolesHeld, NicsOf, LinksOf;
    var h := Host(NicsOf(p.nics, p.bootMac), multiset(DisksOf(p)), multiset{}, RolesHeld(f, p.uuid));
    BecameHost(t, q, id, h);
    BecameThen(t, q, s, id, h, Stated(p, RolesHeld(f, p.uuid)));
    BecameFinal(f, t, s, id, Stated(p, RolesHeld(f, p.uuid)), p.uuid, Bare(f, p.uuid));
  }

  class MachineDiscoveryRepository {
    const db: Connection

    constructor (db: Connection)
      ensures this.db == db
    {
      this.db := db;
    }

    /** Taken exactly when the report is acceptable, and then the view of the fleet
        changes as `Discover` says; otherwise nothing is committed. Answers whether the
        machine is new. */
    method Upsert(post: Post) returns (r: Result<bool, Rejection>)
      requires Valid(db.committed)
      modifies db
      ensures Valid(db.committed)
      ensures View(db.committed) == Discover(old(View(db.committed)), post)
      ensures r.Ok? <==> Acceptable(old(View(db.committed)), post)
      ensures r.Ok? ==> post.Post? && post.uuid in View(db.committed).hosts && HasFactsOf(View(db.committed).hosts[post.uuid], post)
      ensures r.Ok? ==> r.value == (post.uuid !in old(View(db.committed)).hosts)
      ensures r.Err? ==> db.committed == old(db.committed)
      ensures db.committed.schedules == old(db.committed.schedules)
    {
      ghost var f := View(db.committed);
      Verdict(f, post);
      if post.Incomplete? {
        return Err(MissingKeys);
      }
      hide *;
      var enrolled := Enroll(db.committed, post.uuid);
      if enrolled.None? {
        return Err(InvalidColumn);
      }
      var (t, id, isNew) := enrolled.value;
      var s := InsertDisks(t, id, DisksOf(post));
      var staged := StageInterfaces(s.next, id, post);
      if staged.None? {
        return Err(InvalidColumn);
      }
      var (rows, named) := staged.value;
      DisksStored(f, t, s, id, post);
      FlushFits(f, s, id, post, rows, named);
      if Clash(s.interfaces, rows) {
        return Err(DuplicateMac);
      }
      var q := WithInterfaces(s, rows, s.next + |post.nics|);
      Flushed(s, id, post, rows, named);
      InterfacesStored(f, t, s, q, id, post);
      var linked := InsertLinks(q, id, post, named);
      if linked.Err? {
        return Err(linked.error);
      }
      LinksStored(f, t, q, linked.value, id, post);
      ReportIsStored(f, post);
      db.committed := linked.value;
      r := Ok(isNew);
    }
  }
}
