/** Reading the tables: the rows related to a machine, and a walk over all machines in
    whatever order the database returns them. */
module Queries {
  import opened Prelude
  import opened Machines
  import opened Database

  /** us goes through the set once. */
  ghost predicate Enumerates(us: seq<string>, s: set<string>) {
    Distinct(us) && forall u :: u in us <==> u in s
  }

  lemma {:induction false} SomeOrder(s: set<string>) returns (us: seq<string>)
    ensures Enumerates(us, s) && |us| == |s|
  {
    if s == {} {
      us := [];
    } else {
      var x :| x in s;
      var rest := SomeOrder(s - {x});
      us := rest + [x];
    }
  }

  // ---------- rows behind the view ----------

  predicate Holds(t: Tables, id: nat, r: Role) {
    exists k :: k in t.schedules && t.schedules[k] == Owned(id, r)
  }

  predicate Unscheduled(t: Tables, id: nat) {
    forall k :: k in t.schedules ==> t.schedules[k].machineId != id
  }

  lemma HoldsIsHeld(t: Tables, id: nat, r: Role)
    ensures Holds(t, id, r) <==> r in HostAt(t, id).roles
  {
    BagMember(At(t.schedules, id), r);
    hide Bag;
    if Holds(t, id, r) {
      var k :| k in t.schedules && t.schedules[k] == Owned(id, r);
      assert At(t.schedules, id)[k] == r;
    }
  }

  lemma UnscheduledHoldsNothing(t: Tables, id: nat)
    ensures Unscheduled(t, id) <==> HostAt(t, id).roles == multiset{}
  {
    forall r ensures Holds(t, id, r) <==> r in HostAt(t, id).roles {
      HoldsIsHeld(t, id, r);
    }
    hide HostAt;
    if !Unscheduled(t, id) {
      var k :| k in t.schedules && t.schedules[k].machineId == id;
      assert Holds(t, id, t.schedules[k].value);
    }
  }

  lemma RowOfHost(t: Tables, id: nat, k: nat)
    requires k in t.interfaces && t.interfaces[k].machineId == id
    ensures t.interfaces[k].value in HostAt(t, id).nics
  {
    assert At(t.interfaces, id)[k] == t.interfaces[k].value;
  }

  lemma OwnsByRow(t: Tables, id: nat, mac: string)
    ensures Owns(HostAt(t, id), mac) <==> exists k :: k in t.interfaces && t.interfaces[k].machineId == id && t.interfaces[k].value.mac == mac
  {
    forall k | k in t.interfaces && t.interfaces[k].machineId == id ensures t.interfaces[k].value in HostAt(t, id).nics {
      RowOfHost(t, id, k);
    }
    if Owns(HostAt(t, id), mac) {
      var n :| n in HostAt(t, id).nics && n.mac == mac;
      var j :| j in At(t.interfaces, id) && At(t.interfaces, id)[j] == n;
      assert t.interfaces[j].value.mac == mac && t.interfaces[j].machineId == id;
    }
  }

  lemma BootOfHost(t: Tables, id: nat)
    requires OneBootEach(t.interfaces)
    ensures HasBoot(HostAt(t, id)) <==> exists k :: k in t.interfaces && t.interfaces[k].machineId == id && t.interfaces[k].value.asBoot
    ensures forall k :: k in t.interfaces && t.interfaces[k].machineId == id && t.interfaces[k].value.asBoot
                        ==> HasBoot(HostAt(t, id)) && BootNic(HostAt(t, id)) == t.interfaces[k].value
  {
    forall k | k in t.interfaces && t.interfaces[k].machineId == id && t.interfaces[k].value.asBoot
      ensures HasBoot(HostAt(t, id)) && BootNic(HostAt(t, id)) == t.interfaces[k].value
    {
      RowOfHost(t, id, k);
      var b := BootNic(HostAt(t, id));
      var j :| j in At(t.interfaces, id) && At(t.interfaces, id)[j] == b;
      assert t.interfaces[j].value == b;
    }
    if HasBoot(HostAt(t, id)) {
      var j :| j in At(t.interfaces, id) && At(t.interfaces, id)[j] == BootNic(HostAt(t, id));
      assert t.interfaces[j].machineId == id && t.interfaces[j].value.asBoot;
    }
  }

  /** `machine.boot_interface`. */
  method BootInterface(t: Tables, id: nat) returns (r: Option<Nic>)
    requires OneBootEach(t.interfaces)
    ensures r.Some? <==> HasBoot(HostAt(t, id))
    ensures r.Some? ==> r.value == BootNic(HostAt(t, id))
  {
    BootOfHost(t, id);
    hide HostAt, HasBoot, OneBootEach;
    if k :| k in t.interfaces && t.interfaces[k].machineId == id && t.interfaces[k].value.asBoot {
      r := Some(t.interfaces[k].value);
    } else {
      r := None;
    }
  }

  /** `machine.interfaces[0]`: whichever row the database returns first. */
  method FirstInterface(t: Tables, id: nat) returns (n: Nic)
    requires HasBoot(HostAt(t, id))
    ensures n in HostAt(t, id).nics
  {
    assert At(t.interfaces, id) != map[];
    assert exists k :: k in t.interfaces && t.interfaces[k].machineId == id by {
      var k :| k in At(t.interfaces, id);
    }
    var k :| k in t.interfaces && t.interfaces[k].machineId == id;
    RowOfHost(t, id, k);
    n := t.interfaces[k].value;
  }

  /** A relationship such as `machine.disks`, in some order. */
  method RelatedRows<V>(rows: map<nat, V>) returns (vs: seq<V>)
    ensures multiset(vs) == Bag(rows)
  {
    vs := [];
    var left := rows;
    while left != map[]
      invariant multiset(vs) + Bag(left) == Bag(rows)
      decreases left.Keys
    {
      var k :| k in left;
      BagRemove(left, k);
      vs := vs + [left[k]];
      left := left - {k};
    }
  }

  method NicRows(t: Tables, id: nat) returns (l: seq<Nic>)
    ensures forall n :: n in l <==> n in HostAt(t, id).nics
  {
    l := RelatedRows(At(t.interfaces, id));
    forall n ensures n in l <==> n in HostAt(t, id).nics {
      BagMember(At(t.interfaces, id), n);
      assert n in l <==> n in multiset(l);
    }
  }

  // ---------- visiting the machines ----------

  /** A query that names no order: every machine once, in some order. */
  method QueryMachines(t: Tables) returns (ids: seq<nat>)
    ensures Distinct(ids) && forall id :: id in ids <==> id in t.machines
  {
    ids := [];
    var todo := t.machines.Keys;
    while todo != {}
      invariant todo <= t.machines.Keys && Distinct(ids)
      invariant forall id :: id in ids <==> id in t.machines && id !in todo
      decreases todo
    {
      var id :| id in todo;
      ids := ids + [id];
      todo := todo - {id};
    }
  }

  /** us are the uuids of those of the first k visited machines that belong to the set. */
  ghost predicate Visited(t: Tables, ids: seq<nat>, k: nat, s: set<string>, us: seq<string>)
    requires k <= |ids|
  {
    && (forall i :: 0 <= i < |ids| ==> ids[i] in t.machines)
    && Distinct(us)
    && forall u :: u in us <==> u in s && exists i :: 0 <= i < k && t.machines[ids[i]] == u
  }

  lemma VisitedNone(t: Tables, ids: seq<nat>, s: set<string>)
    requires forall id :: id in ids ==> id in t.machines
    ensures Visited(t, ids, 0, s, [])
  {}

  lemma VisitedNext(t: Tables, ids: seq<nat>, k: nat, s: set<string>, us: seq<string>)
    requires UuidsUnique(t.machines) && Distinct(ids) && k < |ids| && Visited(t, ids, k, s, us)
    ensures ids[k] in t.machines
    ensures t.machines[ids[k]] in s ==> Visited(t, ids, k + 1, s, us + [t.machines[ids[k]]])
    ensures t.machines[ids[k]] !in s ==> Visited(t, ids, k + 1, s, us)
  {
    assert t.machines[ids[k]] !in us;
  }

  lemma VisitedAll(t: Tables, ids: seq<nat>, s: set<string>, us: seq<string>)
    requires Visited(t, ids, |ids|, s, us)
    requires forall id :: id in ids <==> id in t.machines
    requires forall u :: u in s ==> u in t.machines.Values
    ensures Enumerates(us, s)
  {
    forall u | u in s ensures exists i :: 0 <= i < |ids| && t.machines[ids[i]] == u {
      var id :| id in t.machines && t.machines[id] == u;
      assert id in ids;
    }
  }
}
