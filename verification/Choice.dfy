/** Which machines become control planes: the plan sorts the available machines by the MAC
    of the interface the database happens to list first. When that choice depends on the
    listing, and when it does not. */
module Choice {
  import opened Prelude
  import opened Machines
  import opened Queries
  import opened Scheduling
  import opened PlanRun
  import opened PlanSafety
  import opened Placement
  import opened PlanHazards
  import opened Plan

  /** The machines that a listing chooses. */
  ghost function ChosenBy(f: Fleet, listed: seq<Nic>, n: nat): set<string>
    requires n <= |listed|
  {
    Owners(f, MacList(InOrder(listed))[..n])
  }

  /** All listings of the fleet choose the same n machines. */
  ghost predicate AllChooseSame(f: Fleet, n: nat) {
    forall us, l, vs, k :: Chosen(f, us, l, n) && Chosen(f, vs, k, n) ==> ChosenBy(f, l, n) == ChosenBy(f, k, n)
  }

  /** Every MAC of every machine of s is at most every MAC of every other available one. */
  ghost predicate Separated(f: Fleet, s: set<string>) {
    forall u, v, a, b :: u in s && u in f.hosts && v in Available(f) - s && a in f.hosts[u].nics && b in f.hosts[v].nics ==> LessEq(a.mac, b.mac)
  }

  // ---------- where a machine stands in a listing ----------

  /** The place of each machine of a listing once it is sorted. */
  lemma PlaceOf(f: Fleet, us: seq<string>, l: seq<Nic>, u: string) returns (i: nat)
    requires Enumerates(us, Available(f)) && AnyNics(f, us, l) && u in Available(f)
    ensures i < |l| && u in f.hosts && InOrder(l)[i] in f.hosts[u].nics
    ensures forall j :: 0 <= j < |us| && us[j] == u ==> InOrder(l)[i] == l[j]
  {
    assert u in us;
    var j: nat :| j < |us| && us[j] == u;
    InOrderPermutes(l);
    i := OriginOf(InOrder(l), l, j);
  }

  /** A machine is chosen exactly if its place is among the first n. */
  lemma ChosenByPlace(f: Fleet, us: seq<string>, l: seq<Nic>, n: nat, u: string, i: nat)
    requires Coherent(f) && Chosen(f, us, l, n) && i < |l| && u in f.hosts && InOrder(l)[i] in f.hosts[u].nics
    ensures u in ChosenBy(f, l, n) <==> i < n
  {
    hide *;
    ChosenMeans(f, us, l, n);
    if i < n {
      PlacedEarly(f, l, n, u, i);
    }
    if u in ChosenBy(f, l, n) {
      var j := EarlyPlace(f, l, n, u);
      OnePlaceEach(f, us, l, u, i, j);
    }
  }

  lemma PlacedEarly(f: Fleet, l: seq<Nic>, n: nat, u: string, i: nat)
    requires i < n <= |l| && u in f.hosts && InOrder(l)[i] in f.hosts[u].nics
    ensures u in ChosenBy(f, l, n)
  {
    hide InOrder;
    var macs := MacList(InOrder(l))[..n];
    assert OwnedBy(f, u, macs[i]);
  }

  lemma EarlyPlace(f: Fleet, l: seq<Nic>, n: nat, u: string) returns (j: nat)
    requires n <= |l| && u in ChosenBy(f, l, n)
    ensures j < n && OwnedBy(f, u, InOrder(l)[j].mac)
  {
    hide InOrder, OwnedBy;
    j :| j < n && OwnedBy(f, u, MacList(InOrder(l))[..n][j]);
  }

  lemma OnePlaceEach(f: Fleet, us: seq<string>, l: seq<Nic>, u: string, i: nat, j: nat)
    requires Coherent(f) && Enumerates(us, Available(f)) && AnyNics(f, us, l) && i < |l| && j < |l|
    requires u in f.hosts && InOrder(l)[i] in f.hosts[u].nics && OwnedBy(f, u, InOrder(l)[j].mac)
    ensures i == j
  {
    InOrderPermutes(l);
    assert OwnedBy(f, u, InOrder(l)[i].mac);
    if i < j { ListedApart(f, us, l, InOrder(l), i, j, u); }
    if j < i { ListedApart(f, us, l, InOrder(l), j, i, u); }
  }

  lemma InOrderAt(l: seq<Nic>, i: nat, j: nat)
    requires i < j < |l|
    ensures LessEq(InOrder(l)[i].mac, InOrder(l)[j].mac)
  {
    InOrderPermutes(l);
    assert LessEq(MacOf(InOrder(l)[i]), MacOf(InOrder(l)[j]));
  }

  /** A listing chooses n of the available machines. */
  lemma ChoosesThatMany(f: Fleet, us: seq<string>, l: seq<Nic>, n: nat)
    requires Coherent(f) && Chosen(f, us, l, n)
    ensures n <= |l| && ChosenBy(f, l, n) <= Available(f) && |ChosenBy(f, l, n)| == n
  {
    hide *;
    ChosenMeans(f, us, l, n);
    ListedArePending(f, us, l, n);
    OwnersPerMac(f, MacList(InOrder(l))[..n]);
    forall u | u in ChosenBy(f, l, n) ensures u in Available(f) {
      ChosenIsListed(f, us, l, n, u);
    }
    ChosenByIs(f, l, n);
  }

  lemma ChosenByIs(f: Fleet, l: seq<Nic>, n: nat)
    requires n <= |l|
    ensures ChosenBy(f, l, n) == Owners(f, MacList(InOrder(l))[..n])
  {}

  lemma ChosenMeans(f: Fleet, us: seq<string>, l: seq<Nic>, n: nat)
    requires Chosen(f, us, l, n)
    ensures Enumerates(us, Available(f)) && AnyNics(f, us, l) && n <= |l|
  {}

  lemma ChosenIsListed(f: Fleet, us: seq<string>, l: seq<Nic>, n: nat, u: string)
    requires Coherent(f) && Chosen(f, us, l, n) && n <= |l| && u in ChosenBy(f, l, n)
    ensures u in Available(f)
  {
    hide *;
    ChosenMeans(f, us, l, n);
    var j := EarlyPlace(f, l, n, u);
    var v := ListedOwner(f, us, l, j);
    OwnedExists(f, u, InOrder(l)[j].mac);
    OneOwner(f, v, u, InOrder(l)[j].mac);
  }

  lemma ListedOwner(f: Fleet, us: seq<string>, l: seq<Nic>, j: nat) returns (v: string)
    requires Enumerates(us, Available(f)) && AnyNics(f, us, l) && j < |l|
    ensures v in Available(f) && OwnedBy(f, v, InOrder(l)[j].mac)
  {
    InOrderPermutes(l);
    var a := OriginOf(l, InOrder(l), j);
    v := us[a];
    assert us[a] in us;
    hide InOrder;
  }

  /** MACs that lead to different machines have as many owners. */
  lemma {:induction false} OwnersPerMac(f: Fleet, macs: seq<string>)
    requires Coherent(f) && Pending(f, macs)
    ensures |Owners(f, macs)| == |macs|
    decreases |macs|
  {
    hide *;
    if macs == [] {
      OwnersOfNothing(f, NODE_ROLES);
    } else {
      var u := OwnerWanted(f, macs);
      PendingRest(f, macs);
      OwnersPerMac(f, macs[1..]);
      FirstOwner(f, u, macs);
      OneMore(Owners(f, macs[1..]), u);
      assert {u} + Owners(f, macs[1..]) == Owners(f, macs[1..]) + {u};
    }
  }

  lemma PendingRest(f: Fleet, macs: seq<string>)
    requires Pending(f, macs) && macs != []
    ensures Pending(f, macs[1..])
  {
    hide OwnedBy, Wanted;
    var rest := macs[1..];
    assert forall i :: 0 <= i < |rest| ==> rest[i] == macs[i + 1];
  }

  // ---------- separated machines are chosen by every listing ----------

  lemma SeparatedIsChosen(f: Fleet, s: set<string>, us: seq<string>, l: seq<Nic>, n: nat)
    requires Coherent(f) && s <= Available(f) && |s| == n && Separated(f, s) && Chosen(f, us, l, n)
    ensures ChosenBy(f, l, n) == s
  {
    ChoosesThatMany(f, us, l, n);
    hide Coherent, Separated, Chosen, ChosenBy, Available;
    if ChosenBy(f, l, n) != s {
      var u, v := TwoDifferent(s, ChosenBy(f, l, n));
      NoStrangerChosen(f, s, us, l, n, u, v);
    }
  }

  lemma TwoDifferent(a: set<string>, b: set<string>) returns (u: string, v: string)
    requires |a| == |b| && a != b
    ensures u in a && u !in b && v in b && v !in a
  {
    if a <= b {
      WholeOf(a, b);
    }
    if b <= a {
      WholeOf(b, a);
    }
    u :| u in a && u !in b;
    v :| v in b && v !in a;
  }

  lemma WholeOf(a: set<string>, b: set<string>)
    requires a <= b && |a| == |b|
    ensures a == b
  {
    forall x | x in b ensures x in a {
      if x !in a { SubsetIsSmaller(a, b - {x}); }
    }
  }

  lemma NoStrangerChosen(f: Fleet, s: set<string>, us: seq<string>, l: seq<Nic>, n: nat, u: string, v: string)
    requires Coherent(f) && s <= Available(f) && Separated(f, s) && Chosen(f, us, l, n) && n <= |l|
    requires u in s && v in Available(f) - s && v in ChosenBy(f, l, n)
    ensures u in ChosenBy(f, l, n)
  {
    hide *;
    ChosenMeans(f, us, l, n);
    var i := PlaceOf(f, us, l, u);
    var j := PlaceOf(f, us, l, v);
    ChosenByPlace(f, us, l, n, u, i);
    ChosenByPlace(f, us, l, n, v, j);
    if j < i {
      SeparatedSays(f, s, u, v, InOrder(l)[i], InOrder(l)[j]);
      InOrderAt(l, j, i);
      LessEqAntisymmetric(InOrder(l)[i].mac, InOrder(l)[j].mac);
      NicsApart(f, u, v, InOrder(l)[i], InOrder(l)[j]);
    }
  }

  lemma SeparatedSays(f: Fleet, s: set<string>, u: string, v: string, a: Nic, b: Nic)
    requires Separated(f, s) && u in s && u in f.hosts && v in Available(f) - s && v in f.hosts && a in f.hosts[u].nics && b in f.hosts[v].nics
    ensures LessEq(a.mac, b.mac)
  {}

  lemma NicsApart(f: Fleet, u: string, v: string, a: Nic, b: Nic)
    requires Coherent(f) && u in f.hosts && v in f.hosts && u != v && a in f.hosts[u].nics && b in f.hosts[v].nics
    ensures a.mac != b.mac
  {}

  // ---------- a choice of every listing is separated ----------

  /** The listing that shows u by a, v by b and the others by their boot interface. */
  lemma ListingShowing(f: Fleet, u: string, a: Nic, v: string, b: Nic) returns (us: seq<string>, l: seq<Nic>)
    requires u in Available(f) && v in Available(f) && u != v && a in f.hosts[u].nics && b in f.hosts[v].nics
    ensures Enumerates(us, Available(f)) && AnyNics(f, us, l) && |l| == |Available(f)|
    ensures forall j :: 0 <= j < |us| ==> (us[j] == u ==> l[j] == a) && (us[j] == v ==> l[j] == b)
  {
    us := SomeOrder(Available(f));
    forall i | 0 <= i < |us| ensures us[i] in Available(f) { assert us[i] in us; }
    l := seq(|us|, i requires 0 <= i < |us| => if us[i] == u then a else if us[i] == v then b else BootNic(f.hosts[us[i]]));
  }

  lemma ChosenTogether(f: Fleet, us: seq<string>, l: seq<Nic>, n: nat, u: string, a: Nic, v: string, b: Nic)
    requires Coherent(f) && Chosen(f, us, l, n) && u in Available(f) && v in Available(f) && !LessEq(a.mac, b.mac)
    requires forall j :: 0 <= j < |us| ==> (us[j] == u ==> l[j] == a) && (us[j] == v ==> l[j] == b)
    ensures u in ChosenBy(f, l, n) ==> v in ChosenBy(f, l, n)
  {
    ChosenMeans(f, us, l, n);
    var i := PlaceOf(f, us, l, u);
    var j := PlaceOf(f, us, l, v);
    ShownBy(us, u, f);
    ShownBy(us, v, f);
    assert InOrder(l)[i] == a && InOrder(l)[j] == b;
    ChosenByPlace(f, us, l, n, u, i);
    ChosenByPlace(f, us, l, n, v, j);
    if i < j { InOrderAt(l, i, j); }
  }

  lemma ShownBy(us: seq<string>, u: string, f: Fleet)
    requires Enumerates(us, Available(f)) && u in Available(f)
    ensures exists j :: 0 <= j < |us| && us[j] == u
  {
    assert u in us;
  }

  lemma SameChoiceIsSeparated(f: Fleet, us: seq<string>, l: seq<Nic>, n: nat)
    requires Coherent(f) && AllChooseSame(f, n) && Chosen(f, us, l, n) && n <= |l|
    ensures Separated(f, ChosenBy(f, l, n))
  {
    hide Coherent, AllChooseSame, Chosen, ChosenBy, Available, LessEq;
    var s := ChosenBy(f, l, n);
    AvailableExist(f);
    forall u, v, a, b | u in s && u in f.hosts && v in Available(f) - s && a in f.hosts[u].nics && b in f.hosts[v].nics ensures LessEq(a.mac, b.mac) {
      SeparatedPair(f, us, l, n, u, v, a, b);
    }
  }

  lemma AvailableExist(f: Fleet)
    ensures forall u :: u in Available(f) ==> u in f.hosts
  {}

  lemma SeparatedPair(f: Fleet, us: seq<string>, l: seq<Nic>, n: nat, u: string, v: string, a: Nic, b: Nic)
    requires Coherent(f) && AllChooseSame(f, n) && Chosen(f, us, l, n)
    requires u in ChosenBy(f, l, n) && u in f.hosts && v in Available(f) - ChosenBy(f, l, n) && v in f.hosts
    requires a in f.hosts[u].nics && b in f.hosts[v].nics
    ensures LessEq(a.mac, b.mac)
  {
    hide *;
    ChosenLength(f, us, l, n);
    ChoosesThatMany(f, us, l, n);
    if !LessEq(a.mac, b.mac) {
      var vs, k := ListingShowing(f, u, a, v, b);
      ChooseAlike(f, us, l, vs, k, n);
      ChosenTogether(f, vs, k, n, u, a, v, b);
    }
  }

  lemma ChooseAlike(f: Fleet, us: seq<string>, l: seq<Nic>, vs: seq<string>, k: seq<Nic>, n: nat)
    requires AllChooseSame(f, n) && Chosen(f, us, l, n) && Chosen(f, vs, k, n)
    ensures n <= |l| && n <= |k| && ChosenBy(f, l, n) == ChosenBy(f, k, n)
  {}

  lemma ChosenLength(f: Fleet, us: seq<string>, l: seq<Nic>, n: nat)
    requires Chosen(f, us, l, n)
    ensures n <= |Available(f)|
  {
    ListedLength(f, us, l);
  }

  /** All listings choose the same n machines if and only if some n available machines
      have all their MACs below all MACs of the others. */
  lemma SameChoiceIff(f: Fleet, n: nat)
    requires Coherent(f) && n <= |Available(f)|
    ensures AllChooseSame(f, n) <==> exists s: set<string> :: s <= Available(f) && |s| == n && Separated(f, s)
  {
    if AllChooseSame(f, n) {
      var us, l := SomeListing(f);
      ChoosesThatMany(f, us, l, n);
      SameChoiceIsSeparated(f, us, l, n);
    }
    if s: set<string> :| s <= Available(f) && |s| == n && Separated(f, s) {
      hide Separated, Chosen, ChosenBy, Coherent, Available;
      forall us, l, vs, k | Chosen(f, us, l, n) && Chosen(f, vs, k, n) ensures ChosenBy(f, l, n) == ChosenBy(f, k, n) {
        SeparatedIsChosen(f, s, us, l, n);
        SeparatedIsChosen(f, s, vs, k, n);
      }
    }
  }

  // ---------- the fleet after a placement ----------

  ghost predicate AllPlaceSame(f: Fleet, n: nat, roles: seq<Role>) {
    forall g, h :: SmallestPlaced(f, g, n, roles) && SmallestPlaced(f, h, n, roles) ==> g == h
  }

  lemma PlacedByChoice(f: Fleet, us: seq<string>, l: seq<Nic>, n: nat, roles: seq<Role>)
    requires Coherent(f) && RolePartition(f) && Chosen(f, us, l, n) && (roles == CONTROL_PLANE_ROLES || roles == NODE_ROLES)
    ensures var g := PostAll(f, MacList(InOrder(l))[..n], roles);
      SmallestPlaced(f, g, n, roles) && Placed(f, g, ChosenBy(f, l, n), roles)
    ensures forall u :: u in ChosenBy(f, l, n) ==> u in f.hosts && f.hosts[u].roles == multiset{}
  {
    hide *;
    ChosenMeans(f, us, l, n);
    ChosenByIs(f, l, n);
    ListedArePending(f, us, l, n);
    PostAllPlaces(f, MacList(InOrder(l))[..n], roles);
    PlacedByListing(f, PostAll(f, MacList(InOrder(l))[..n], roles), us, l, n, roles);
  }

  lemma PlacedTellsOwners(f: Fleet, g: Fleet, h: Fleet, a: set<string>, b: set<string>, roles: seq<Role>)
    requires Placed(f, g, a, roles) && Placed(f, h, b, roles) && roles != []
    requires forall u :: u in a + b ==> u in f.hosts && f.hosts[u].roles == multiset{}
    ensures g == h <==> a == b
  {
    assert multiset(roles) != multiset{} by { assert roles[0] in multiset(roles); }
    if g == h {
      forall u | u in a + b ensures u in a && u in b {
        assert g.hosts[u] == h.hosts[u];
      }
    }
    if a == b {
      forall u | u in f.hosts ensures g.hosts[u] == h.hosts[u] {}
    }
  }

  /** The fleet after a placement does not depend on the listing under exactly that condition. */
  lemma PlacementForgetsListingIff(f: Fleet, n: nat, roles: seq<Role>)
    requires Coherent(f) && RolePartition(f) && n <= |Available(f)| && (roles == CONTROL_PLANE_ROLES || roles == NODE_ROLES)
    ensures AllPlaceSame(f, n, roles) <==> exists s: set<string> :: s <= Available(f) && |s| == n && Separated(f, s)
  {
    SameChoiceIff(f, n);
    hide Separated, Coherent, RolePartition, Chosen, ChosenBy, SmallestPlaced, PostAll, Placed, Available;
    if AllChooseSame(f, n) {
      forall g, h | SmallestPlaced(f, g, n, roles) && SmallestPlaced(f, h, n, roles) ensures g == h {
        PlacedAlike(f, g, h, n, roles);
      }
    }
    if AllPlaceSame(f, n, roles) {
      forall us, l, vs, k | Chosen(f, us, l, n) && Chosen(f, vs, k, n) ensures ChosenBy(f, l, n) == ChosenBy(f, k, n) {
        ChosenAlike(f, us, l, vs, k, n, roles);
      }
    }
  }

  lemma PlacedAlike(f: Fleet, g: Fleet, h: Fleet, n: nat, roles: seq<Role>)
    requires Coherent(f) && RolePartition(f) && AllChooseSame(f, n) && (roles == CONTROL_PLANE_ROLES || roles == NODE_ROLES)
    requires SmallestPlaced(f, g, n, roles) && SmallestPlaced(f, h, n, roles)
    ensures g == h
  {
    hide Coherent, RolePartition, ChosenBy, PostAll, Placed, Available, Enumerates, AnyNics, InOrder;
    var us, l :| Chosen(f, us, l, n) && g == PostAll(f, MacList(InOrder(l))[..n], roles);
    var vs, k :| Chosen(f, vs, k, n) && h == PostAll(f, MacList(InOrder(k))[..n], roles);
    PlacedByChoice(f, us, l, n, roles);
    PlacedByChoice(f, vs, k, n, roles);
    PlacedTellsOwners(f, g, h, ChosenBy(f, l, n), ChosenBy(f, k, n), roles);
  }

  lemma ChosenAlike(f: Fleet, us: seq<string>, l: seq<Nic>, vs: seq<string>, k: seq<Nic>, n: nat, roles: seq<Role>)
    requires Coherent(f) && RolePartition(f) && AllPlaceSame(f, n, roles) && (roles == CONTROL_PLANE_ROLES || roles == NODE_ROLES)
    requires Chosen(f, us, l, n) && Chosen(f, vs, k, n)
    ensures ChosenBy(f, l, n) == ChosenBy(f, k, n)
  {
    hide Coherent, RolePartition, ChosenBy, PostAll, Placed, Available, Enumerates, AnyNics, InOrder, SmallestPlaced;
    PlacedByChoice(f, us, l, n, roles);
    PlacedByChoice(f, vs, k, n, roles);
    PlacedTellsOwners(f, PostAll(f, MacList(InOrder(l))[..n], roles), PostAll(f, MacList(InOrder(k))[..n], roles), ChosenBy(f, l, n), ChosenBy(f, k, n), roles);
  }

  // ---------- a fleet whose choice depends on the listing ----------

  function PlainNic(mac: string, asBoot: bool): Nic {
    Nic(mac, "eth", 24, "10.0.0.1", "10.0.0.1/24", "10.0.0.254", asBoot, None)
  }

  const PREFIX: string := "00:00:00:00:00:0"

  function MacEnding(c: char): string {
    PREFIX + [c]
  }

  const LOW: Nic := PlainNic(MacEnding('1'), true)
  const MIDDLE: Nic := PlainNic(MacEnding('2'), true)
  const HIGH: Nic := PlainNic(MacEnding('3'), false)

  /** Two free machines; the one card lies between the two cards of the other. */
  function Interleaved(): Fleet {
    TwoHosts(LOW, MIDDLE, HIGH)
  }

  lemma EndingsInOrder(c: char, d: char)
    requires c < d
    ensures LessEq(MacEnding(c), MacEnding(d)) && MacEnding(c) != MacEnding(d)
  {
    SamePrefix(PREFIX, [c], [d]);
    var n := |PREFIX|;
    assert MacEnding(c)[n] == c && MacEnding(d)[n] == d;
  }

  lemma MacsBetween()
    ensures LessEq(LOW.mac, MIDDLE.mac) && LessEq(MIDDLE.mac, HIGH.mac) && LOW.mac != MIDDLE.mac && MIDDLE.mac != HIGH.mac && LOW.mac != HIGH.mac
  {
    hide *;
    EndingsInOrder('1', '2');
    EndingsInOrder('2', '3');
    EndingsInOrder('1', '3');
    CardMacs();
  }

  lemma CardMacs()
    ensures LOW.mac == MacEnding('1') && MIDDLE.mac == MacEnding('2') && HIGH.mac == MacEnding('3')
    ensures LOW.asBoot && MIDDLE.asBoot && !HIGH.asBoot
  {}

  lemma {:induction false} SamePrefix(p: string, a: string, b: string)
    requires LessEq(a, b)
    ensures LessEq(p + a, p + b)
  {
    if p == [] {
      assert p + a == a && p + b == b;
    } else {
      SamePrefix(p[1..], a, b);
      assert (p + a)[1..] == p[1..] + a && (p + b)[1..] == p[1..] + b;
    }
  }

  lemma LeastFirst(a: Nic, b: Nic, least: Nic)
    requires least == a || least == b
    requires LessEq(least.mac, a.mac) && LessEq(least.mac, b.mac) && a.mac != b.mac
    ensures InOrder([a, b])[0] == least
  {
    var l, s := [a, b], InOrder([a, b]);
    InOrderPermutes(l);
    assert multiset(l) == multiset{a, b} && s == [s[0], s[1]];
    assert s[0] in multiset(l) && least in multiset(s);
    if s[0] != least {
      assert s[1] == least;
      InOrderAt(l, 0, 1);
      LessEqAntisymmetric(s[0].mac, least.mac);
    }
  }

  lemma FirstOf(f: Fleet, l: seq<Nic>, n: Nic, u: string)
    requires Coherent(f) && |l| > 0 && InOrder(l)[0] == n && u in f.hosts && n in f.hosts[u].nics
    ensures ChosenBy(f, l, 1) == {u}
  {
    var macs := MacList(InOrder(l))[..1];
    assert macs == [n.mac] && OwnedBy(f, u, n.mac);
    forall v ensures OwnsSome(f, v, macs) <==> v == u {
      if OwnsSome(f, v, macs) { OwnerIsUnique(f, u, v, n.mac); }
      assert OwnedBy(f, u, macs[0]);
    }
    hide OwnsSome, Coherent;
  }

  function TwoHosts(low: Nic, middle: Nic, high: Nic): Fleet {
    Fleet(map["one" := Host({low, high}, multiset{}, multiset{}, multiset{}), "two" := Host({middle}, multiset{}, multiset{}, multiset{})], map[])
  }

  lemma TwoNames()
    ensures "one" != "two" && Distinct(["one", "two"])
  {
    assert "one"[0] != "two"[0];
  }

  lemma TwoHostsAre(low: Nic, middle: Nic, high: Nic)
    ensures var f := TwoHosts(low, middle, high);
      && f.hosts.Keys == {"one", "two"} && f.hosts["one"].nics == {low, high} && f.hosts["two"].nics == {middle}
      && f.hosts["one"].roles == multiset{} && f.hosts["two"].roles == multiset{}
  {
    TwoNames();
  }

  predicate CardOf(u: string, n: Nic, x: string, y: string, low: Nic, middle: Nic, high: Nic) {
    (u == x && (n == low || n == high)) || (u == y && n == middle)
  }

  lemma CardsTellMachines(u: string, n: Nic, v: string, k: Nic, x: string, y: string, low: Nic, middle: Nic, high: Nic)
    requires CardOf(u, n, x, y, low, middle, high) && CardOf(v, k, x, y, low, middle, high)
    requires x != y && low.mac != middle.mac && middle.mac != high.mac && low.mac != high.mac && !high.asBoot
    ensures n.mac == k.mac ==> u == v && n == k
    ensures u == v && n.asBoot && k.asBoot ==> n == k
  {}

  lemma NicsTellMachines(f: Fleet, x: string, y: string, low: Nic, middle: Nic, high: Nic)
    requires forall u, n :: u in f.hosts && n in f.hosts[u].nics ==> CardOf(u, n, x, y, low, middle, high)
    requires x != y && low.mac != middle.mac && middle.mac != high.mac && low.mac != high.mac && !high.asBoot
    ensures Coherent(f)
  {
    hide CardOf;
    forall u, v, n, k | u in f.hosts && v in f.hosts && n in f.hosts[u].nics && k in f.hosts[v].nics
      ensures n.mac == k.mac ==> u == v && n == k
      ensures u == v && n.asBoot && k.asBoot ==> n == k
    {
      CardsTellMachines(u, n, v, k, x, y, low, middle, high);
    }
  }

  lemma TwoHostsAvailable(low: Nic, middle: Nic, high: Nic)
    requires low.asBoot && middle.asBoot
    ensures Available(TwoHosts(low, middle, high)) == {"one", "two"}
  {
    hide TwoHosts;
    var f := TwoHosts(low, middle, high);
    TwoHostsAre(low, middle, high);
    assert low in f.hosts["one"].nics && middle in f.hosts["two"].nics;
    assert HasBoot(f.hosts["one"]) && HasBoot(f.hosts["two"]);
  }

  lemma TwoListed(f: Fleet, a: Nic, b: Nic)
    requires Available(f) == {"one", "two"} && Distinct(["one", "two"])
    requires "one" in f.hosts && "two" in f.hosts && a in f.hosts["one"].nics && b in f.hosts["two"].nics
    ensures Chosen(f, ["one", "two"], [a, b], 1)
  {
    hide Available;
  }

  /** Listed by its low card the first machine is chosen, listed by its high card the second. */
  lemma ChoiceFollowsListing()
    ensures var f := Interleaved();
      && Coherent(f) && Chosen(f, ["one", "two"], [LOW, MIDDLE], 1) && Chosen(f, ["one", "two"], [HIGH, MIDDLE], 1)
      && ChosenBy(f, [LOW, MIDDLE], 1) == {"one"} && ChosenBy(f, [HIGH, MIDDLE], 1) == {"two"}
      && !AllChooseSame(f, 1)
  {
    hide InOrder, LessEq, Coherent, Available, Chosen, ChosenBy, MacEnding, TwoHosts;
    var f := Interleaved();
    MacsBetween();
    CardMacs();
    TwoNames();
    TwoHostsAre(LOW, MIDDLE, HIGH);
    NicsTellMachines(f, "one", "two", LOW, MIDDLE, HIGH);
    TwoHostsAvailable(LOW, MIDDLE, HIGH);
    TwoListed(f, LOW, MIDDLE);
    TwoListed(f, HIGH, MIDDLE);
    assert LessEq(LOW.mac, LOW.mac) by { LessEqTotal(LOW.mac, LOW.mac); }
    assert LessEq(MIDDLE.mac, MIDDLE.mac) by { LessEqTotal(MIDDLE.mac, MIDDLE.mac); }
    LeastFirst(LOW, MIDDLE, LOW);
    LeastFirst(HIGH, MIDDLE, MIDDLE);
    FirstOf(f, [LOW, MIDDLE], LOW, "one");
    FirstOf(f, [HIGH, MIDDLE], MIDDLE, "two");
  }
}
