/** The group files of matchbox: numbered by position in a list sorted by MAC, overwritten,
    and never deleted. */
module GroupFiles {
  import opened Prelude
  import opened Machines
  import opened Queries
  import opened Scheduling
  import opened PlanRun
  import opened PlanSafety

  type Files = map<(Marker, nat), string>

  ghost function HostsOfMarker(f: Fleet, m: Marker): set<string> {
    if m == ControlPlaneGroup then ControlPlanes(f) else Nodes(f)
  }

  // ---------- the order in which machines are numbered ----------

  ghost predicate Bootable(f: Fleet, s: set<string>) {
    forall u :: u in s ==> u in f.hosts && HasBoot(f.hosts[u])
  }

  ghost function BootMacs(f: Fleet, s: set<string>): set<string>
    requires Bootable(f, s)
  {
    set u | u in s :: BootNic(f.hosts[u]).mac
  }

  /** ms are the boot MACs of the machines of s, each once, in increasing order. */
  ghost predicate Numbering(f: Fleet, s: set<string>, ms: seq<string>) {
    && Bootable(f, s)
    && SortedBy(Itself, ms) && Distinct(ms) && |ms| == |s|
    && Elements(ms) == BootMacs(f, s)
  }

  /** There is only one numbering, whatever order the rows came in. */
  lemma NumberingIsUnique(f: Fleet, s: set<string>, ms: seq<string>, ns: seq<string>)
    requires Numbering(f, s, ms) && Numbering(f, s, ns)
    ensures ms == ns
  {
    SameElements(ms, ns);
    hide Distinct, Elements, BootMacs;
    SortedIsUnique(Itself, ms, ns);
  }

  lemma EnumeratesAll(us: seq<string>, s: set<string>)
    requires Enumerates(us, s)
    ensures |us| == |s| && Elements(us) == s
  {
    DistinctCardinality(us);
    assert Elements(us) == s;
  }

  /** What a sync works through is the numbering. */
  lemma ListingIsNumbered(f: Fleet, s: set<string>, us: seq<string>, listed: seq<Nic>)
    requires Coherent(f) && Enumerates(us, s) && BootNics(f, us, listed)
    ensures Numbering(f, s, MacList(InOrder(listed)))
  {
    hide *;
    var sorted := InOrder(listed);
    EnumeratesAll(us, s);
    SameCount(f, us, listed);
    InOrderPermutes(listed);
    ListedBoot(f, s, us, listed);
    MacsApart(f, us, listed);
    MacsPermuted(listed, sorted);
    PermutationDistinct(MacList(listed), MacList(sorted));
    ListedMacs(f, us, listed);
    PermutationElements(MacList(listed), MacList(sorted));
    MacsSorted(sorted);
    IsNumbering(f, s, MacList(sorted));
  }

  lemma ListedBoot(f: Fleet, s: set<string>, us: seq<string>, listed: seq<Nic>)
    requires Enumerates(us, s) && BootNics(f, us, listed)
    ensures Distinct(us) && Bootable(f, s)
  {
    forall u | u in s ensures u in f.hosts && HasBoot(f.hosts[u]) { assert u in us; }
  }

  lemma MacsSorted(l: seq<Nic>)
    requires SortedBy(MacOf, l)
    ensures SortedBy(Itself, MacList(l))
  {}

  lemma IsNumbering(f: Fleet, s: set<string>, ms: seq<string>)
    requires Bootable(f, s) && SortedBy(Itself, ms) && Distinct(ms) && |ms| == |s| && Elements(ms) == BootMacs(f, s)
    ensures Numbering(f, s, ms)
  {}

  lemma SameCount(f: Fleet, us: seq<string>, listed: seq<Nic>)
    requires BootNics(f, us, listed)
    ensures |us| == |listed|
  {}

  lemma PermutationElements<T>(xs: seq<T>, ys: seq<T>)
    requires multiset(xs) == multiset(ys)
    ensures Elements(xs) == Elements(ys)
  {
    forall x ensures x in Elements(xs) <==> x in Elements(ys) {
      assert x in multiset(xs) <==> x in xs;
      assert x in multiset(ys) <==> x in ys;
    }
  }

  lemma MacsDropAt(xs: seq<Nic>, j: nat)
    requires j < |xs|
    ensures multiset(MacList(xs)) == multiset(MacList(DropAt(xs, j))) + multiset{xs[j].mac}
  {
    DropAtBag(MacList(xs), j);
    assert DropAt(MacList(xs), j) == MacList(DropAt(xs, j));
  }

  lemma {:induction false} MacsPermuted(xs: seq<Nic>, ys: seq<Nic>)
    requires multiset(xs) == multiset(ys)
    ensures multiset(MacList(xs)) == multiset(MacList(ys))
  {
    SameLength(xs, ys);
    if xs != [] {
      var j := OriginOf(ys, xs, 0);
      hide *;
      DropAtBag(xs, 0);
      DropAtBag(ys, j);
      SameRest(multiset(DropAt(xs, 0)), multiset(DropAt(ys, j)), xs[0]);
      MacsPermuted(DropAt(xs, 0), DropAt(ys, j));
      MacsDropAt(xs, 0);
      MacsDropAt(ys, j);
    }
  }

  lemma MacsApart(f: Fleet, us: seq<string>, listed: seq<Nic>)
    requires Coherent(f) && Distinct(us) && BootNics(f, us, listed)
    ensures Distinct(MacList(listed))
  {
    forall a, b | 0 <= a < b < |listed| ensures MacList(listed)[a] != MacList(listed)[b] {
      assert us[a] != us[b];
      BootMacsDiffer(f, us[a], us[b]);
    }
  }

  lemma ListedMacs(f: Fleet, us: seq<string>, listed: seq<Nic>)
    requires BootNics(f, us, listed) && Bootable(f, Elements(us))
    ensures Elements(MacList(listed)) == BootMacs(f, Elements(us))
  {
    forall m | m in Elements(MacList(listed)) ensures m in BootMacs(f, Elements(us)) {
      var i :| 0 <= i < |listed| && MacList(listed)[i] == m;
      assert us[i] in Elements(us);
    }
    forall m | m in BootMacs(f, Elements(us)) ensures m in Elements(MacList(listed)) {
      var u :| u in Elements(us) && BootNic(f.hosts[u]).mac == m;
      var i :| 0 <= i < |us| && us[i] == u;
      assert MacList(listed)[i] == m;
    }
  }

  // ---------- which files exist ----------

  lemma {:induction false} WrittenFiles(files: Files, m: Marker, l: seq<Nic>, k: nat, c: Marker, i: nat)
    requires k <= |l|
    ensures var t := Written(files, m, l, k);
      && ((c, i) in t <==> (c == m && i < k) || (c, i) in files)
      && ((c, i) in t ==> t[(c, i)] == if c == m && i < k then Lower(l[i].mac) else files[(c, i)])
  {
    if k > 0 { WrittenFiles(files, m, l, k - 1, c, i); }
  }

  /** The files of a series are numbered 0 to k - 1. */
  ghost predicate Numbered(files: Files, m: Marker, k: nat) {
    forall i: nat :: (m, i) in files <==> i < k
  }

  ghost predicate Fits(f: Fleet, files: Files, m: Marker) {
    exists k: nat :: k <= |HostsOfMarker(f, m)| && Numbered(files, m, k)
  }

  /** No series is longer than its role has machines. */
  ghost predicate FilesInv(s: State) {
    Fits(s.fleet, s.files, ControlPlaneGroup) && Fits(s.fleet, s.files, NodeGroup)
  }

  lemma WritingKeepsNumbers(files: Files, m: Marker, l: seq<Nic>, j: nat, c: Marker, k: nat)
    requires j <= |l| && Numbered(files, c, k)
    ensures Numbered(Written(files, m, l, j), c, if c == m && j > k then j else k)
  {
    forall i: nat ensures (c, i) in Written(files, m, l, j) <==> i < (if c == m && j > k then j else k) {
      WrittenFiles(files, m, l, j, c, i);
    }
  }

  lemma WritingFits(f: Fleet, files: Files, m: Marker, us: seq<string>, l: seq<Nic>, j: nat, c: Marker)
    requires Fits(f, files, c) && Enumerates(us, HostsOfMarker(f, m)) && |l| == |us| && j <= |l|
    ensures Fits(f, Written(files, m, l, j), c)
  {
    EnumeratesAll(us, HostsOfMarker(f, m));
    hide Enumerates, HostsOfMarker, Written, Numbered;
    var k: nat :| k <= |HostsOfMarker(f, c)| && Numbered(files, c, k);
    WritingKeepsNumbers(files, m, l, j, c, k);
  }

  lemma GrowingFits(f: Fleet, g: Fleet, files: Files, c: Marker)
    requires Fits(f, files, c) && Grows(f, g)
    ensures Fits(g, files, c)
  {
    hide Numbered, ControlPlanes, Nodes;
    var k: nat :| k <= |HostsOfMarker(f, c)| && Numbered(files, c, k);
    SubsetIsSmaller(HostsOfMarker(f, c), HostsOfMarker(g, c));
  }

  // ---------- a completed sync ----------

  /** The files of the series are exactly one per machine of the role, file i selecting
      the i-th smallest boot MAC in lower case. */
  ghost predicate Exact(f: Fleet, files: Files, m: Marker, ms: seq<string>) {
    && Numbering(f, HostsOfMarker(f, m), ms)
    && Numbered(files, m, |ms|)
    && forall i: nat :: i < |ms| ==> (m, i) in files && files[(m, i)] == Lower(ms[i])
  }

  lemma FitsWith(f: Fleet, files: Files, m: Marker) returns (k: nat)
    requires Fits(f, files, m)
    ensures k <= |HostsOfMarker(f, m)| && Numbered(files, m, k)
  {
    k :| k <= |HostsOfMarker(f, m)| && Numbered(files, m, k);
  }

  lemma WholeSeries(f: Fleet, files: Files, m: Marker, us: seq<string>, listed: seq<Nic>)
    requires Coherent(f) && Fits(f, files, m) && Enumerates(us, HostsOfMarker(f, m)) && BootNics(f, us, listed)
    ensures Exact(f, Written(files, m, InOrder(listed), |listed|), m, MacList(InOrder(listed)))
  {
    hide *;
    SameCount(f, us, listed);
    EnumeratesAll(us, HostsOfMarker(f, m));
    ListingIsNumbered(f, HostsOfMarker(f, m), us, listed);
    var k := FitsWith(f, files, m);
    WritingKeepsNumbers(files, m, InOrder(listed), |listed|, m, k);
    WholeIsExact(f, files, m, InOrder(listed));
  }

  lemma WholeIsExact(f: Fleet, files: Files, m: Marker, l: seq<Nic>)
    requires Numbering(f, HostsOfMarker(f, m), MacList(l)) && Numbered(Written(files, m, l, |l|), m, |l|)
    ensures Exact(f, Written(files, m, l, |l|), m, MacList(l))
  {
    hide Numbering, HostsOfMarker, Written, Numbered;
    forall i: nat | i < |l| ensures (m, i) in Written(files, m, l, |l|) && Written(files, m, l, |l|)[(m, i)] == Lower(l[i].mac) {
      WrittenFiles(files, m, l, |l|, m, i);
    }
  }

  lemma OtherSeries(f: Fleet, files: Files, m: Marker, l: seq<Nic>, j: nat, c: Marker, ns: seq<string>)
    requires c != m && j <= |l| && Exact(f, files, c, ns)
    ensures Exact(f, Written(files, m, l, j), c, ns)
  {
    hide HostsOfMarker, Numbering, Written;
    forall i: nat ensures (c, i) in Written(files, m, l, j) <==> (c, i) in files
                  ensures (c, i) in files ==> Written(files, m, l, j)[(c, i)] == files[(c, i)]
    {
      WrittenFiles(files, m, l, j, c, i);
    }
  }

  /** A second sync over an unchanged fleet changes no file, in whatever order its rows come. */
  lemma SecondSyncChangesNothing(f: Fleet, files: Files, m: Marker, ms: seq<string>, us: seq<string>, listed: seq<Nic>, k: nat)
    requires Coherent(f) && Exact(f, files, m, ms)
    requires Enumerates(us, HostsOfMarker(f, m)) && BootNics(f, us, listed) && k <= |listed|
    ensures Written(files, m, InOrder(listed), k) == files
  {
    ListingIsNumbered(f, HostsOfMarker(f, m), us, listed);
    hide Numbering, Enumerates, Coherent, HostsOfMarker, Written, BootNics;
    NumberingIsUnique(f, HostsOfMarker(f, m), ms, MacList(InOrder(listed)));
    var t := Written(files, m, InOrder(listed), k);
    forall c: Marker, i: nat
      ensures (c, i) in t <==> (c, i) in files
      ensures (c, i) in t ==> t[(c, i)] == files[(c, i)]
    {
      WrittenFiles(files, m, InOrder(listed), k, c, i);
    }
    hide Exact;
    SameFiles(t, files);
  }

  lemma SameFiles(a: Files, b: Files)
    requires forall c: Marker, i: nat :: ((c, i) in a <==> (c, i) in b) && ((c, i) in a ==> a[(c, i)] == b[(c, i)])
    ensures a == b
  {
    forall key ensures (key in a <==> key in b) && (key in a ==> a[key] == b[key]) {
      assert key == (key.0, key.1);
    }
  }

  // ---------- every scheduled machine has its one group ----------

  /** No two of the MACs differ only in the case of letters. */
  ghost predicate CaseApart(macs: set<string>) {
    forall a, b :: a in macs && b in macs && Lower(a) == Lower(b) ==> a == b
  }

  ghost predicate SelectedBy(files: Files, m: Marker, i: nat, mac: string) {
    (m, i) in files && files[(m, i)] == Lower(mac)
  }

  /** After a complete sync each machine of the role is selected by exactly one file of
      its series, and each file selects a machine of the role, unless two boot MACs of the
      role differ only in case. */
  lemma OneGroupEach(f: Fleet, files: Files, m: Marker, ms: seq<string>, u: string)
    requires Exact(f, files, m, ms) && u in HostsOfMarker(f, m) && CaseApart(BootMacs(f, HostsOfMarker(f, m)))
    ensures exists i: nat :: SelectedBy(files, m, i, BootNic(f.hosts[u]).mac)
    ensures forall i: nat, j: nat :: SelectedBy(files, m, i, BootNic(f.hosts[u]).mac) && SelectedBy(files, m, j, BootNic(f.hosts[u]).mac) ==> i == j
  {
    var mac := BootNic(f.hosts[u]).mac;
    assert mac in BootMacs(f, HostsOfMarker(f, m));
    assert mac in Elements(ms);
    var i: nat :| i < |ms| && ms[i] == mac;
    assert SelectedBy(files, m, i, mac);
    forall j: nat, k: nat | SelectedBy(files, m, j, mac) && SelectedBy(files, m, k, mac) ensures j == k {
      assert j < |ms| && k < |ms| && ms[j] in Elements(ms) && ms[k] in Elements(ms);
      assert ms[j] == mac && ms[k] == mac;
    }
  }

  lemma NoStaleGroup(f: Fleet, files: Files, m: Marker, ms: seq<string>, i: nat)
    requires Exact(f, files, m, ms) && (m, i) in files
    ensures exists u :: u in HostsOfMarker(f, m) && u in f.hosts && HasBoot(f.hosts[u]) && SelectedBy(files, m, i, BootNic(f.hosts[u]).mac)
  {
    assert i < |ms| && ms[i] in Elements(ms);
    var u :| u in HostsOfMarker(f, m) && BootNic(f.hosts[u]).mac == ms[i];
    assert SelectedBy(files, m, i, ms[i]);
  }

  /** The condition is exact: with two boot MACs of a role equal up to case, one machine
      is selected by two files. */
  lemma CaseClash(f: Fleet, files: Files, m: Marker, ms: seq<string>)
    requires Exact(f, files, m, ms)
    ensures CaseApart(BootMacs(f, HostsOfMarker(f, m))) <==>
            forall u, i: nat, j: nat ::
              u in HostsOfMarker(f, m) && SelectedBy(files, m, i, BootNic(f.hosts[u]).mac) && SelectedBy(files, m, j, BootNic(f.hosts[u]).mac)
              ==> i == j
  {
    var s := HostsOfMarker(f, m);
    if CaseApart(BootMacs(f, s)) {
      forall u, i: nat, j: nat | u in s && SelectedBy(files, m, i, BootNic(f.hosts[u]).mac) && SelectedBy(files, m, j, BootNic(f.hosts[u]).mac)
        ensures i == j
      {
        OneGroupEach(f, files, m, ms, u);
      }
    } else {
      var a, b :| a in BootMacs(f, s) && b in BootMacs(f, s) && Lower(a) == Lower(b) && a != b;
      assert a in Elements(ms) && b in Elements(ms);
      var i: nat :| i < |ms| && ms[i] == a;
      var j: nat :| j < |ms| && ms[j] == b;
      var u :| u in s && BootNic(f.hosts[u]).mac == a;
      assert SelectedBy(files, m, i, a) && SelectedBy(files, m, j, a) && i != j;
    }
  }

  // ---------- both series together ----------

  /** No two files, of whichever series, select that MAC. */
  ghost predicate SelectedOnce(files: Files, mac: string) {
    forall m: Marker, i: nat, c: Marker, j: nat :: SelectedBy(files, m, i, mac) && SelectedBy(files, c, j, mac) ==> m == c && i == j
  }

  ghost predicate BothNumbered(f: Fleet, files: Files, ms: seq<string>, ns: seq<string>) {
    Exact(f, files, ControlPlaneGroup, ms) && Exact(f, files, NodeGroup, ns)
  }

  ghost function ScheduledMacs(f: Fleet): set<string>
    requires Bootable(f, ControlPlanes(f)) && Bootable(f, Nodes(f))
  {
    BootMacs(f, ControlPlanes(f)) + BootMacs(f, Nodes(f))
  }

  lemma ExactIsBootable(f: Fleet, files: Files, m: Marker, ms: seq<string>)
    requires Exact(f, files, m, ms)
    ensures Bootable(f, HostsOfMarker(f, m))
  {}

  lemma FileOf(f: Fleet, files: Files, m: Marker, ms: seq<string>, mac: string) returns (i: nat)
    requires Exact(f, files, m, ms) && Bootable(f, HostsOfMarker(f, m)) && mac in BootMacs(f, HostsOfMarker(f, m))
    ensures i < |ms| && ms[i] == mac && SelectedBy(files, m, i, mac)
  {
    hide BootMacs, HostsOfMarker;
    assert mac in Elements(ms);
    i :| i < |ms| && ms[i] == mac;
  }

  lemma SelectedIs(f: Fleet, files: Files, m: Marker, ms: seq<string>, i: nat, mac: string)
    requires Exact(f, files, m, ms) && Bootable(f, HostsOfMarker(f, m)) && SelectedBy(files, m, i, mac)
    ensures i < |ms| && ms[i] in BootMacs(f, HostsOfMarker(f, m)) && Lower(ms[i]) == Lower(mac)
  {
    hide BootMacs, HostsOfMarker;
    assert (m, i) in files;
    assert ms[i] in Elements(ms);
  }

  lemma SamePlace(f: Fleet, files: Files, m: Marker, ms: seq<string>, i: nat, j: nat)
    requires Exact(f, files, m, ms) && i < |ms| && j < |ms| && ms[i] == ms[j]
    ensures i == j
  {}

  lemma BootOwner(f: Fleet, s: set<string>, mac: string) returns (u: string)
    requires Bootable(f, s) && mac in BootMacs(f, s)
    ensures u in s && u in f.hosts && HasBoot(f.hosts[u]) && BootNic(f.hosts[u]).mac == mac
  {
    u :| u in s && BootNic(f.hosts[u]).mac == mac;
  }

  /** Machines apart boot from MACs apart. */
  lemma MacsApartFor(f: Fleet, s: set<string>, t: set<string>)
    requires Coherent(f) && s !! t && Bootable(f, s) && Bootable(f, t)
    ensures BootMacs(f, s) !! BootMacs(f, t)
  {
    hide *;
    forall a | a in BootMacs(f, s) ensures a !in BootMacs(f, t) {
      if a in BootMacs(f, t) {
        var u := BootOwner(f, s, a);
        var v := BootOwner(f, t, a);
        BootMacsDiffer(f, u, v);
      }
    }
  }

  lemma MarkerMacs(f: Fleet, m: Marker)
    requires Bootable(f, ControlPlanes(f)) && Bootable(f, Nodes(f))
    ensures Bootable(f, HostsOfMarker(f, m)) && BootMacs(f, HostsOfMarker(f, m)) <= ScheduledMacs(f)
    ensures BootMacs(f, HostsOfMarker(f, m)) == if m == ControlPlaneGroup then BootMacs(f, ControlPlanes(f)) else BootMacs(f, Nodes(f))
  {}

  ghost function NumbersOf(m: Marker, ms: seq<string>, ns: seq<string>): seq<string> {
    if m == ControlPlaneGroup then ms else ns
  }

  lemma BothSaid(f: Fleet, files: Files, ms: seq<string>, ns: seq<string>, m: Marker)
    requires BothNumbered(f, files, ms, ns)
    ensures Bootable(f, ControlPlanes(f)) && Bootable(f, Nodes(f)) && Exact(f, files, m, NumbersOf(m, ms, ns))
  {
    ExactIsBootable(f, files, ControlPlaneGroup, ms);
    ExactIsBootable(f, files, NodeGroup, ns);
    hide Exact, Bootable, ControlPlanes, Nodes;
  }

  lemma FilesTellApart(f: Fleet, files: Files, ms: seq<string>, ns: seq<string>, mac: string, m: Marker, i: nat, c: Marker, j: nat)
    requires Coherent(f) && BothNumbered(f, files, ms, ns) && ControlPlanes(f) !! Nodes(f)
    requires Bootable(f, ControlPlanes(f)) && Bootable(f, Nodes(f)) && CaseApart(ScheduledMacs(f)) && mac in ScheduledMacs(f)
    requires SelectedBy(files, m, i, mac) && SelectedBy(files, c, j, mac)
    ensures m == c && i == j
  {
    hide *;
    BothSaid(f, files, ms, ns, m);
    BothSaid(f, files, ms, ns, c);
    MarkerMacs(f, m);
    MarkerMacs(f, c);
    SelectedIs(f, files, m, NumbersOf(m, ms, ns), i, mac);
    SelectedIs(f, files, c, NumbersOf(c, ms, ns), j, mac);
    SameByCase(ScheduledMacs(f), NumbersOf(m, ms, ns)[i], mac);
    SameByCase(ScheduledMacs(f), NumbersOf(c, ms, ns)[j], mac);
    MacsApartFor(f, ControlPlanes(f), Nodes(f));
    if m == c {
      SamePlace(f, files, m, NumbersOf(m, ms, ns), i, j);
    }
  }

  lemma SameByCase(macs: set<string>, a: string, b: string)
    requires CaseApart(macs) && a in macs && b in macs && Lower(a) == Lower(b)
    ensures a == b
  {}

  lemma MarkerOfMac(f: Fleet, mac: string) returns (m: Marker)
    requires Bootable(f, ControlPlanes(f)) && Bootable(f, Nodes(f)) && mac in ScheduledMacs(f)
    ensures Bootable(f, HostsOfMarker(f, m)) && mac in BootMacs(f, HostsOfMarker(f, m))
  {
    MarkerMacs(f, ControlPlaneGroup);
    MarkerMacs(f, NodeGroup);
    m := if mac in BootMacs(f, ControlPlanes(f)) then ControlPlaneGroup else NodeGroup;
  }

  /** Two boot MACs equal up to case are both selected by the files of both. */
  lemma ClashAcross(f: Fleet, files: Files, ms: seq<string>, ns: seq<string>, a: string, b: string)
    requires BothNumbered(f, files, ms, ns) && Bootable(f, ControlPlanes(f)) && Bootable(f, Nodes(f))
    requires a in ScheduledMacs(f) && b in ScheduledMacs(f) && a != b && Lower(a) == Lower(b)
    ensures !SelectedOnce(files, a)
  {
    hide Exact, Bootable, ControlPlanes, Nodes, BootMacs, HostsOfMarker, BothNumbered, ScheduledMacs, Lower;
    var m := MarkerOfMac(f, a);
    var c := MarkerOfMac(f, b);
    BothSaid(f, files, ms, ns, m);
    BothSaid(f, files, ms, ns, c);
    var i := FileOf(f, files, m, NumbersOf(m, ms, ns), a);
    var j := FileOf(f, files, c, NumbersOf(c, ms, ns), b);
    assert SelectedBy(files, m, i, a) && SelectedBy(files, c, j, a);
  }

  /** With both series exact and the two roles apart, every scheduled machine is selected by
      exactly one file of the two series if and only if no two of their boot MACs are equal
      up to case. */
  lemma OneGroupAcrossIff(f: Fleet, files: Files, ms: seq<string>, ns: seq<string>)
    requires Coherent(f) && BothNumbered(f, files, ms, ns) && ControlPlanes(f) !! Nodes(f)
    ensures Bootable(f, ControlPlanes(f)) && Bootable(f, Nodes(f))
    ensures forall mac :: mac in ScheduledMacs(f) ==> exists m: Marker, i: nat :: SelectedBy(files, m, i, mac)
    ensures CaseApart(ScheduledMacs(f)) <==> forall mac :: mac in ScheduledMacs(f) ==> SelectedOnce(files, mac)
  {
    hide Exact, Bootable, ControlPlanes, Nodes, BootMacs, HostsOfMarker, BothNumbered, ScheduledMacs, Lower, Coherent, SelectedBy;
    BothSaid(f, files, ms, ns, ControlPlaneGroup);
    forall mac | mac in ScheduledMacs(f) ensures exists m: Marker, i: nat :: SelectedBy(files, m, i, mac) {
      var m := MarkerOfMac(f, mac);
      BothSaid(f, files, ms, ns, m);
      var i := FileOf(f, files, m, NumbersOf(m, ms, ns), mac);
    }
    if CaseApart(ScheduledMacs(f)) {
      forall mac, m: Marker, i: nat, c: Marker, j: nat | mac in ScheduledMacs(f) && SelectedBy(files, m, i, mac) && SelectedBy(files, c, j, mac)
        ensures m == c && i == j
      {
        FilesTellApart(f, files, ms, ns, mac, m, i, c, j);
      }
    } else {
      var a, b :| a in ScheduledMacs(f) && b in ScheduledMacs(f) && Lower(a) == Lower(b) && a != b;
      ClashAcross(f, files, ms, ns, a, b);
    }
  }
}
