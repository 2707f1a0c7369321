/** The etcd cluster as each host is told about it: the sorted addresses of the members
    and the initial-cluster text made from them. */
module ClusterView {
  import opened Prelude
  import opened Text
  import opened Machines
  import opened Queries
  import opened Scheduling

  /** What a query for the etcd members may answer: for each member the address of one of
      its interfaces, in any order. */
  ghost predicate Answer(f: Fleet, ips: seq<string>) {
    exists us :: Enumerates(us, ListedWithRole(f, EtcdMember)) && SomeIps(f, us, ips)
  }

  function MemberEntry(ip: string, port: nat): string {
    ip + "=https://" + ip + ":" + Decimal(port)
  }

  function MemberEntries(ips: seq<string>, port: nat): (r: seq<string>)
    ensures |r| == |ips| && forall i :: 0 <= i < |ips| ==> r[i] == MemberEntry(ips[i], port)
  {
    seq(|ips|, i requires 0 <= i < |ips| => MemberEntry(ips[i], port))
  }

  /** `order_etcd_named`, secure. */
  function InitialCluster(ips: seq<string>, port: nat): string {
    JoinWith(MemberEntries(Sorted(ips), port), ',')
  }

  // ---------- when every query agrees ----------

  /** All interfaces of each etcd member carry one address. */
  ghost predicate OneAddressEach(f: Fleet) {
    forall u, n, k :: u in ListedWithRole(f, EtcdMember) && n in f.hosts[u].nics && k in f.hosts[u].nics ==> n.ipv4 == k.ipv4
  }

  ghost predicate AllAnswersAgree(f: Fleet) {
    forall ips, jps :: Answer(f, ips) && Answer(f, jps) ==> Sorted(ips) == Sorted(jps)
  }

  ghost function BootIp(f: Fleet, u: string): string
    requires u in ListedWithRole(f, EtcdMember)
  {
    BootNic(f.hosts[u]).ipv4
  }

  /** Exactly then do all queries, in whatever order their rows come and whichever
      interface comes first, give the same sorted list of members. */
  lemma AnswersAgreeIff(f: Fleet)
    ensures AllAnswersAgree(f) <==> OneAddressEach(f)
  {
    if OneAddressEach(f) {
      forall ips, jps | Answer(f, ips) && Answer(f, jps) ensures Sorted(ips) == Sorted(jps) {
        SameAnswers(f, ips, jps);
        SortedForgetsOrder(ips, jps);
      }
    } else {
      var u, n, k :| u in ListedWithRole(f, EtcdMember) && n in f.hosts[u].nics && k in f.hosts[u].nics && n.ipv4 != k.ipv4;
      var ips, jps := TwoAnswers(f, u, n, k);
    }
  }

  lemma SameAnswers(f: Fleet, ips: seq<string>, jps: seq<string>)
    requires OneAddressEach(f) && Answer(f, ips) && Answer(f, jps)
    ensures multiset(ips) == multiset(jps)
  {
    var us :| Enumerates(us, ListedWithRole(f, EtcdMember)) && SomeIps(f, us, ips);
    var vs :| Enumerates(vs, ListedWithRole(f, EtcdMember)) && SomeIps(f, vs, jps);
    AnswerIsBoot(f, us, ips);
    AnswerIsBoot(f, vs, jps);
    hide OneAddressEach, ListedWithRole, SomeIps;
    SameIps(f, us, ips, vs, jps);
  }

  /** The list of addresses picked for the machines of a list. */
  ghost predicate BootIps(f: Fleet, us: seq<string>, ips: seq<string>) {
    |ips| == |us| && forall i :: 0 <= i < |us| ==> us[i] in ListedWithRole(f, EtcdMember) && ips[i] == BootIp(f, us[i])
  }

  lemma AnswerIsBoot(f: Fleet, us: seq<string>, ips: seq<string>)
    requires OneAddressEach(f) && Enumerates(us, ListedWithRole(f, EtcdMember)) && SomeIps(f, us, ips)
    ensures BootIps(f, us, ips)
  {
    forall i | 0 <= i < |us| ensures us[i] in ListedWithRole(f, EtcdMember) && ips[i] == BootIp(f, us[i]) {
      assert us[i] in us;
      var n :| n in f.hosts[us[i]].nics && n.ipv4 == ips[i];
      var b := BootNic(f.hosts[us[i]]);
    }
  }

  lemma BootIpsDropAt(f: Fleet, us: seq<string>, ips: seq<string>, j: nat)
    requires BootIps(f, us, ips) && j < |us|
    ensures BootIps(f, DropAt(us, j), DropAt(ips, j)) && ips[j] == BootIp(f, us[j])
  {
    forall i | 0 <= i < |us| - 1
      ensures DropAt(us, j)[i] in ListedWithRole(f, EtcdMember) && DropAt(ips, j)[i] == BootIp(f, DropAt(us, j)[i])
    {
      var k := if i < j then i else i + 1;
      assert DropAt(us, j)[i] == us[k] && DropAt(ips, j)[i] == ips[k];
    }
  }

  lemma {:induction false} SameIps(f: Fleet, us: seq<string>, ips: seq<string>, vs: seq<string>, jps: seq<string>)
    requires BootIps(f, us, ips) && BootIps(f, vs, jps) && Distinct(us) && Distinct(vs) && Elements(us) == Elements(vs)
    ensures multiset(ips) == multiset(jps)
    decreases |us|
  {
    DistinctCardinality(us);
    DistinctCardinality(vs);
    if us != [] {
      assert us[0] in Elements(vs);
      var j: nat :| j < |vs| && vs[j] == us[0];
      assert |us| == |ips| && |vs| == |jps|;
      hide *;
      DistinctDropAt(us, 0);
      DistinctDropAt(vs, j);
      BootIpsDropAt(f, us, ips, 0);
      BootIpsDropAt(f, vs, jps, j);
      SameIps(f, DropAt(us, 0), DropAt(ips, 0), DropAt(vs, j), DropAt(jps, j));
      DropAtBag(ips, 0);
      DropAtBag(jps, j);
    }
  }

  /** Addresses for all members but u: v by its interface k, the others by their boot one. */
  lemma OtherMembers(f: Fleet, u: string, v: string, k: Nic) returns (rest: seq<string>, tail: seq<string>)
    requires v in ListedWithRole(f, EtcdMember) && k in f.hosts[v].nics
    ensures Enumerates(rest, ListedWithRole(f, EtcdMember) - {u}) && SomeIps(f, rest, tail)
    ensures v != u ==> k.ipv4 in tail
    ensures v == u ==> BootIps(f, rest, tail)
  {
    var s := ListedWithRole(f, EtcdMember);
    rest := SomeOrder(s - {u});
    OrderSays(rest, s - {u});
    tail := seq(|rest|, i requires 0 <= i < |rest| => if rest[i] == v then k.ipv4 else if rest[i] in s then BootIp(f, rest[i]) else "");
    forall i | 0 <= i < |rest| ensures rest[i] in f.hosts && HasIp(f.hosts[rest[i]], tail[i]) {
      var b := BootNic(f.hosts[rest[i]]);
    }
    if v != u {
      assert v in rest;
      var i :| 0 <= i < |rest| && rest[i] == v;
      assert tail[i] == k.ipv4;
    }
  }

  lemma AnswerWith(f: Fleet, u: string, n: Nic, rest: seq<string>, tail: seq<string>)
    requires u in ListedWithRole(f, EtcdMember) && n in f.hosts[u].nics
    requires Enumerates(rest, ListedWithRole(f, EtcdMember) - {u}) && SomeIps(f, rest, tail)
    ensures Answer(f, [n.ipv4] + tail)
  {
    OrderWith(ListedWithRole(f, EtcdMember), u, rest);
    hide ListedWithRole, Enumerates;
    IpsWith(f, u, n, rest, tail);
  }

  lemma CountFirst(x: string, tail: seq<string>, y: string)
    ensures multiset(Sorted([x] + tail))[y] == multiset(tail)[y] + (if x == y then 1 else 0)
  {
    assert multiset([x] + tail) == multiset{x} + multiset(tail);
  }

  /** Two answers that differ only in the address of u. */
  lemma TwoAnswers(f: Fleet, u: string, n: Nic, k: Nic) returns (ips: seq<string>, jps: seq<string>)
    requires u in ListedWithRole(f, EtcdMember) && n in f.hosts[u].nics && k in f.hosts[u].nics && n.ipv4 != k.ipv4
    ensures Answer(f, ips) && Answer(f, jps) && multiset(Sorted(ips))[n.ipv4] == multiset(Sorted(jps))[n.ipv4] + 1
  {
    hide *;
    var rest, tail := OtherMembers(f, u, u, n);
    ips, jps := [n.ipv4] + tail, [k.ipv4] + tail;
    AnswerWith(f, u, n, rest, tail);
    AnswerWith(f, u, k, rest, tail);
    CountFirst(n.ipv4, tail, n.ipv4);
    CountFirst(k.ipv4, tail, n.ipv4);
  }

  lemma OrderSays(us: seq<string>, s: set<string>)
    requires Enumerates(us, s)
    ensures forall i :: 0 <= i < |us| ==> us[i] in s
  {
    forall i | 0 <= i < |us| ensures us[i] in s { assert us[i] in us; }
  }

  lemma OrderWith(s: set<string>, u: string, rest: seq<string>)
    requires u in s && Enumerates(rest, s - {u})
    ensures Enumerates([u] + rest, s)
  {
    forall v ensures v in [u] + rest <==> v in s {
      assert v in rest <==> v in s - {u};
    }
    assert u !in rest;
  }

  lemma IpsWith(f: Fleet, u: string, n: Nic, rest: seq<string>, tail: seq<string>)
    requires u in f.hosts && n in f.hosts[u].nics && SomeIps(f, rest, tail)
    ensures SomeIps(f, [u] + rest, [n.ipv4] + tail)
  {
    hide HasIp;
    assert HasIp(f.hosts[u], n.ipv4) by { OneOfThem(f.hosts[u], n); }
  }

  lemma OneOfThem(h: Host, n: Nic)
    requires n in h.nics
    ensures HasIp(h, n.ipv4)
  {}

  // ---------- the initial cluster ----------

  ghost predicate AddressesPlain(f: Fleet) {
    forall u, n :: u in f.hosts && n in f.hosts[u].nics ==> ',' !in n.ipv4
  }

  lemma AddressesArePlain(f: Fleet)
    requires WellAddressed(f)
    ensures AddressesPlain(f)
  {
    forall u, n | u in f.hosts && n in f.hosts[u].nics ensures ',' !in n.ipv4 {
      DottedPlain(n.ipv4, 4);
    }
  }

  lemma EntryPlain(ip: string, port: nat)
    requires ',' !in ip
    ensures ',' !in MemberEntry(ip, port)
  {
    assert ',' !in "=https://" && ',' !in ":" && ',' !in Decimal(port);
  }

  lemma AnswerLength(f: Fleet, us: seq<string>, ips: seq<string>)
    requires Enumerates(us, ListedWithRole(f, EtcdMember)) && SomeIps(f, us, ips)
    ensures |Sorted(ips)| == |ips| == |ListedWithRole(f, EtcdMember)|
  {
    DistinctCardinality(us);
    assert Elements(us) == ListedWithRole(f, EtcdMember);
    SameLength(Sorted(ips), ips);
  }

  lemma AnswerPlain(f: Fleet, us: seq<string>, ips: seq<string>, i: nat)
    requires AddressesPlain(f) && SomeIps(f, us, ips) && i < |Sorted(ips)|
    ensures ',' !in Sorted(ips)[i]
  {
    assert Sorted(ips)[i] in multiset(ips);
    var j :| 0 <= j < |ips| && ips[j] == Sorted(ips)[i];
    assert HasIp(f.hosts[us[j]], ips[j]);
  }

  /** Taken apart at its commas, the initial cluster has one entry per member. */
  lemma ClusterEntries(f: Fleet, ips: seq<string>, port: nat)
    requires AddressesPlain(f) && Answer(f, ips) && ListedWithRole(f, EtcdMember) != {}
    ensures SplitOn(InitialCluster(ips, port), ',') == MemberEntries(Sorted(ips), port)
    ensures |SplitOn(InitialCluster(ips, port), ',')| == |ListedWithRole(f, EtcdMember)|
  {
    var us :| Enumerates(us, ListedWithRole(f, EtcdMember)) && SomeIps(f, us, ips);
    AnswerLength(f, us, ips);
    var entries := MemberEntries(Sorted(ips), port);
    hide ListedWithRole, AddressesPlain, SomeIps, Enumerates, MemberEntry, Sorted;
    forall i | 0 <= i < |entries| ensures ',' !in entries[i] {
      AnswerPlain(f, us, ips, i);
      EntryPlain(Sorted(ips)[i], port);
    }
    SplitUndoesJoin(entries, ',');
  }

  // ---------- every member finds itself ----------

  /** An answer in which the boot interface of every member is listed first. */
  ghost predicate BootAnswer(f: Fleet, ips: seq<string>) {
    exists us :: Enumerates(us, ListedWithRole(f, EtcdMember)) && BootIps(f, us, ips)
  }

  lemma BootAnswerIsAnswer(f: Fleet, ips: seq<string>)
    requires BootAnswer(f, ips)
    ensures Answer(f, ips)
  {
    var us :| Enumerates(us, ListedWithRole(f, EtcdMember)) && BootIps(f, us, ips);
    forall i | 0 <= i < |us| ensures us[i] in f.hosts && HasIp(f.hosts[us[i]], ips[i]) {
      OneOfThem(f.hosts[us[i]], BootNic(f.hosts[us[i]]));
    }
    hide Enumerates, ListedWithRole, HasIp;
    assert SomeIps(f, us, ips);
  }

  /** Whatever other interfaces the members have, two such answers are one list once sorted. */
  lemma BootAnswersAgree(f: Fleet, ips: seq<string>, jps: seq<string>)
    requires BootAnswer(f, ips) && BootAnswer(f, jps)
    ensures Sorted(ips) == Sorted(jps)
  {
    hide ListedWithRole, BootIps;
    var us :| Enumerates(us, ListedWithRole(f, EtcdMember)) && BootIps(f, us, ips);
    var vs :| Enumerates(vs, ListedWithRole(f, EtcdMember)) && BootIps(f, vs, jps);
    SameIps(f, us, ips, vs, jps);
    SortedForgetsOrder(ips, jps);
  }

  /** No other member boots with the address of u. */
  ghost predicate OwnAddress(f: Fleet, u: string)
    requires u in ListedWithRole(f, EtcdMember)
  {
    forall v :: v in ListedWithRole(f, EtcdMember) && v != u ==> BootIp(f, v) != BootIp(f, u)
  }

  /** Where boot interfaces are listed first, a member finds its address in the list, and
      exactly once if and only if no other member boots with it. */
  lemma OwnEntryOnce(f: Fleet, ips: seq<string>, u: string)
    requires BootAnswer(f, ips) && u in ListedWithRole(f, EtcdMember)
    ensures multiset(Sorted(ips))[BootIp(f, u)] >= 1
    ensures multiset(Sorted(ips))[BootIp(f, u)] == 1 <==> OwnAddress(f, u)
  {
    hide ListedWithRole, BootIps, BootIp, Enumerates, Sorted;
    var us :| Enumerates(us, ListedWithRole(f, EtcdMember)) && BootIps(f, us, ips);
    var i := PlaceOf(us, ListedWithRole(f, EtcdMember), u);
    BootIpAt(f, us, ips, i);
    assert ips[i] in multiset(ips);
    if OwnAddress(f, u) {
      forall j | 0 <= j < |ips| && j != i ensures ips[j] != ips[i] {
        BootIpAt(f, us, ips, j);
        OneEach(us, ListedWithRole(f, EtcdMember), i, j);
      }
      OnlyOnce(ips, i);
    } else {
      var v :| v in ListedWithRole(f, EtcdMember) && v != u && BootIp(f, v) == BootIp(f, u);
      var j := PlaceOf(us, ListedWithRole(f, EtcdMember), v);
      BootIpAt(f, us, ips, j);
      CountTwice(ips, if i < j then i else j, if i < j then j else i);
    }
  }

  lemma BootIpAt(f: Fleet, us: seq<string>, ips: seq<string>, i: nat)
    requires BootIps(f, us, ips)
    ensures |ips| == |us| && (i < |us| ==> us[i] in ListedWithRole(f, EtcdMember) && ips[i] == BootIp(f, us[i]))
  {}

  lemma OneEach(us: seq<string>, s: set<string>, i: nat, j: nat)
    requires Enumerates(us, s) && i < |us| && j < |us| && i != j
    ensures us[i] != us[j]
  {}

  lemma OnlyOnce(xs: seq<string>, j: nat)
    requires j < |xs| && forall i :: 0 <= i < |xs| && i != j ==> xs[i] != xs[j]
    ensures multiset(xs)[xs[j]] == 1
  {
    var a, b := xs[..j], xs[j + 1..];
    assert xs == a + [xs[j]] + b;
    assert xs[j] !in a && xs[j] !in b;
    assert multiset(xs) == multiset(a) + multiset{xs[j]} + multiset(b);
  }

  /** All interfaces of u carry its boot address, and no other member has an interface that does. */
  ghost predicate AddressApart(f: Fleet, u: string)
    requires u in ListedWithRole(f, EtcdMember)
  {
    && (forall n :: n in f.hosts[u].nics ==> n.ipv4 == BootIp(f, u))
    && (forall v, k :: v in ListedWithRole(f, EtcdMember) && v != u && k in f.hosts[v].nics ==> k.ipv4 != BootIp(f, u))
  }

  ghost predicate AlwaysOnce(f: Fleet, u: string)
    requires u in ListedWithRole(f, EtcdMember)
  {
    forall ips :: Answer(f, ips) ==> multiset(Sorted(ips))[BootIp(f, u)] == 1
  }

  lemma ApartIsOnce(f: Fleet, u: string, ips: seq<string>)
    requires u in ListedWithRole(f, EtcdMember) && AddressApart(f, u) && Answer(f, ips)
    ensures multiset(Sorted(ips))[BootIp(f, u)] == 1
  {
    var us :| Enumerates(us, ListedWithRole(f, EtcdMember)) && SomeIps(f, us, ips);
    var i := PlaceOf(us, ListedWithRole(f, EtcdMember), u);
    forall j | 0 <= j < |ips| ensures ips[j] == BootIp(f, u) <==> j == i {
      assert us[j] in us && HasIp(f.hosts[us[j]], ips[j]);
      var n :| n in f.hosts[us[j]].nics && n.ipv4 == ips[j];
      assert us[j] == u <==> j == i;
    }
    hide ListedWithRole, Enumerates, SomeIps, AddressApart;
    OnlyOnce(ips, i);
  }

  lemma BootNicListed(f: Fleet, u: string)
    requires u in ListedWithRole(f, EtcdMember)
    ensures u in f.hosts && HasBoot(f.hosts[u]) && BootNic(f.hosts[u]) in f.hosts[u].nics && BootNic(f.hosts[u]).ipv4 == BootIp(f, u)
  {}

  lemma OnceIn(f: Fleet, u: string, ips: seq<string>)
    requires u in ListedWithRole(f, EtcdMember) && AlwaysOnce(f, u) && Answer(f, ips)
    ensures multiset(Sorted(ips))[BootIp(f, u)] == 1
  {}

  /** Of two answers that list u by its boot interface and by n, one misses its address or
      the other has it twice. */
  lemma ListedByAnother(f: Fleet, u: string, n: Nic)
    requires u in ListedWithRole(f, EtcdMember) && u in f.hosts && n in f.hosts[u].nics && n.ipv4 != BootIp(f, u)
    ensures !AlwaysOnce(f, u)
  {
    hide *;
    BootNicListed(f, u);
    var ips, jps := TwoAnswers(f, u, BootNic(f.hosts[u]), n);
    if AlwaysOnce(f, u) {
      OnceIn(f, u, ips);
      OnceIn(f, u, jps);
    }
  }

  /** An answer that lists v by an interface with the address of u has it twice. */
  lemma ListedWithSame(f: Fleet, u: string, v: string, k: Nic)
    requires u in ListedWithRole(f, EtcdMember) && v in ListedWithRole(f, EtcdMember) && v != u
    requires v in f.hosts && k in f.hosts[v].nics && k.ipv4 == BootIp(f, u)
    ensures !AlwaysOnce(f, u)
  {
    hide *;
    BootNicListed(f, u);
    var rest, tail := OtherMembers(f, u, v, k);
    var b := BootNic(f.hosts[u]);
    AnswerWith(f, u, b, rest, tail);
    CountFirst(b.ipv4, tail, b.ipv4);
    assert k.ipv4 in multiset(tail);
    if AlwaysOnce(f, u) { OnceIn(f, u, [b.ipv4] + tail); }
  }

  lemma BootFirst(f: Fleet, u: string, rest: seq<string>, tail: seq<string>)
    requires u in ListedWithRole(f, EtcdMember) && Enumerates(rest, ListedWithRole(f, EtcdMember) - {u}) && BootIps(f, rest, tail)
    ensures BootAnswer(f, [BootIp(f, u)] + tail)
  {
    OrderWith(ListedWithRole(f, EtcdMember), u, rest);
    hide ListedWithRole, Enumerates, BootIp;
    assert BootIps(f, [u] + rest, [BootIp(f, u)] + tail);
  }

  /** A member that no other shares its boot address with misses itself in an answer that
      lists it by an interface with another address. */
  lemma MissesItself(f: Fleet, u: string, n: Nic) returns (ips: seq<string>)
    requires u in ListedWithRole(f, EtcdMember) && u in f.hosts && n in f.hosts[u].nics && n.ipv4 != BootIp(f, u) && OwnAddress(f, u)
    ensures Answer(f, ips) && multiset(Sorted(ips))[BootIp(f, u)] == 0
  {
    hide *;
    var rest, tail := OtherMembers(f, u, u, n);
    ips := [n.ipv4] + tail;
    AnswerWith(f, u, n, rest, tail);
    BootFirst(f, u, rest, tail);
    OwnEntryOnce(f, [BootIp(f, u)] + tail, u);
    CountFirst(n.ipv4, tail, BootIp(f, u));
    CountFirst(BootIp(f, u), tail, BootIp(f, u));
  }

  /** Over all answers, a member finds its address exactly once in every one if and only if
      all its interfaces carry it and no other member has an interface that does. */
  lemma OwnEntryIff(f: Fleet, u: string)
    requires u in ListedWithRole(f, EtcdMember)
    ensures AlwaysOnce(f, u) <==> AddressApart(f, u)
  {
    hide ListedWithRole, Answer, Sorted, BootIp;
    forall v | v in ListedWithRole(f, EtcdMember) ensures v in f.hosts {
      BootNicListed(f, v);
    }
    if AddressApart(f, u) {
      forall ips | Answer(f, ips) ensures multiset(Sorted(ips))[BootIp(f, u)] == 1 {
        ApartIsOnce(f, u, ips);
      }
    } else if n :| n in f.hosts[u].nics && n.ipv4 != BootIp(f, u) {
      ListedByAnother(f, u, n);
    } else {
      var v, k :| v in ListedWithRole(f, EtcdMember) && v != u && k in f.hosts[v].nics && k.ipv4 == BootIp(f, u);
      ListedWithSame(f, u, v, k);
    }
  }

  lemma PlaceOf(us: seq<string>, s: set<string>, u: string) returns (i: nat)
    requires Enumerates(us, s) && u in s
    ensures i < |us| && us[i] == u
  {
    assert u in us;
    i :| i < |us| && us[i] == u;
  }

  // ---------- from addresses to entries ----------

  lemma EntriesApart(a: string, b: string, port: nat)
    ensures MemberEntry(a, port) == MemberEntry(b, port) ==> a == b
  {
    assert |MemberEntry(a, port)| == 2 * |a| + |"=https://"| + |":"| + |Decimal(port)|;
    assert |MemberEntry(b, port)| == 2 * |b| + |"=https://"| + |":"| + |Decimal(port)|;
    assert MemberEntry(a, port)[..|a|] == a && MemberEntry(b, port)[..|b|] == b;
  }

  /** An entry occurs in the list of entries as often as its address in the list of addresses. */
  lemma {:induction false} EntryCounts(ips: seq<string>, ip: string, port: nat)
    ensures multiset(MemberEntries(ips, port))[MemberEntry(ip, port)] == multiset(ips)[ip]
  {
    hide MemberEntry;
    if ips == [] {
      assert MemberEntries(ips, port) == [];
    } else {
      var n := |ips| - 1;
      EntryCounts(ips[..n], ip, port);
      EntriesApart(ips[n], ip, port);
      assert ips == ips[..n] + [ips[n]];
      assert MemberEntries(ips, port) == MemberEntries(ips[..n], port) + [MemberEntry(ips[n], port)];
    }
  }
}
