/** `compute_disks_size` of `sync.py`: the name of the first rung of a ladder of sizes
    above the total size of the disks, each rounded down to whole GiB. */
module DiskClass {
  import opened Prelude

  const GIB: int := 0x4000_0000

  datatype Rung = Rung(name: string, gb: int)

  const IN_MEMORY: string := "inMemory"

  /** `size >> 30`, which floors; Dafny's division by a positive number does too. */
  function WholeGib(size: int): int {
    size / GIB
  }

  function Total(sizes: seq<int>): int {
    if sizes == [] then 0 else Total(sizes[..|sizes| - 1]) + WholeGib(sizes[|sizes| - 1])
  }

  // ---------- the ladder ----------

  ghost predicate SortedRungs(l: seq<Rung>) {
    forall i, j :: 0 <= i < j < |l| ==> l[i].gb <= l[j].gb
  }

  /** The insertion step: after all rungs of the same or a smaller size. */
  method InsertRung(l: seq<Rung>, r: Rung) returns (more: seq<Rung>)
    requires SortedRungs(l)
    ensures multiset(more) == multiset(l) + multiset{r} && SortedRungs(more)
  {
    var j := 0;
    while j < |l| && l[j].gb <= r.gb
      invariant 0 <= j <= |l| && forall k :: 0 <= k < j ==> l[k].gb <= r.gb
    {
      j := j + 1;
    }
    InsertedAt(l, r, j);
    more := l[..j] + [r] + l[j..];
  }

  lemma InsertedAt(l: seq<Rung>, r: Rung, j: nat)
    requires SortedRungs(l) && j <= |l| && (forall k :: 0 <= k < j ==> l[k].gb <= r.gb) && (j < |l| ==> r.gb <= l[j].gb)
    ensures multiset(l[..j] + [r] + l[j..]) == multiset(l) + multiset{r} && SortedRungs(l[..j] + [r] + l[j..])
  {
    assert l == l[..j] + l[j..];
    var more := l[..j] + [r] + l[j..];
    forall a | 0 <= a < |more| ensures more[a] == if a < j then l[a] else if a == j then r else l[a - 1] {}
    forall a, b | 0 <= a < b < |more| ensures more[a].gb <= more[b].gb {
      if b > j && a <= j && j < |l| { assert l[j].gb <= l[b - 1].gb; }
    }
  }

  /** `ladder.sort(key=lambda x: x[1])` */
  method SortLadder(ladder: seq<Rung>) returns (l: seq<Rung>)
    ensures multiset(l) == multiset(ladder) && SortedRungs(l)
  {
    l := [];
    for i := 0 to |ladder|
      invariant multiset(l) == multiset(ladder[..i]) && SortedRungs(l)
    {
      l := InsertRung(l, ladder[i]);
      assert ladder[..i + 1] == ladder[..i] + [ladder[i]];
    }
    assert ladder[..|ladder|] == ladder;
  }

  /** Rung r is the class of the total: the least rung above it, or the top one if none is. */
  ghost predicate ClassOf(ladder: seq<Rung>, total: int, r: Rung) {
    && r in ladder
    && (total < r.gb || forall x :: x in ladder ==> x.gb <= total)
    && (forall x :: x in ladder && total < x.gb ==> r.gb <= x.gb)
    && (total >= r.gb ==> forall x :: x in ladder ==> x.gb <= r.gb)
  }

  /** `compute_disks_size`, with the rung that gave the name. Reading the last rung of an
      empty ladder raises. */
  method ComputeDisksSize(sizes: seq<int>, ladder: seq<Rung>) returns (r: Option<string>, ghost rung: Option<Rung>)
    ensures sizes == [] ==> r == Some("inMemory")
    ensures sizes != [] ==> (r.Some? <==> ladder != []) && (r.Some? <==> rung.Some?)
    ensures sizes != [] && r.Some? ==> ClassOf(ladder, Total(sizes), rung.value) && r.value == rung.value.name
  {
    if sizes == [] {
      return Some(IN_MEMORY), None;
    }
    var total := 0;
    for i := 0 to |sizes|
      invariant total == Total(sizes[..i])
    {
      assert sizes[..i + 1][..i] == sizes[..i];
      total := total + WholeGib(sizes[i]);
    }
    assert sizes[..|sizes|] == sizes;
    var l := SortLadder(ladder);
    SameRungs(l, ladder);
    for i := 0 to |l|
      invariant forall j :: 0 <= j < i ==> l[j].gb <= total
    {
      if total < l[i].gb {
        FirstAbove(l, total, i);
        ClassMoves(l, ladder, total, l[i]);
        return Some(l[i].name), Some(l[i]);
      }
    }
    if l == [] {
      SameLength(l, ladder);
      return None, None;
    }
    TopRung(l, total);
    ClassMoves(l, ladder, total, l[|l| - 1]);
    r, rung := Some(l[|l| - 1].name), Some(l[|l| - 1]);
  }

  lemma SameRungs(l: seq<Rung>, ladder: seq<Rung>)
    requires multiset(l) == multiset(ladder)
    ensures |l| == |ladder| && forall x :: x in l <==> x in ladder
  {
    SameLength(l, ladder);
    forall x ensures x in l <==> x in ladder {
      assert x in multiset(l) <==> x in l;
      assert x in multiset(ladder) <==> x in ladder;
    }
  }

  lemma ClassMoves(l: seq<Rung>, ladder: seq<Rung>, total: int, r: Rung)
    requires (forall x :: x in l <==> x in ladder) && ClassOf(l, total, r)
    ensures ClassOf(ladder, total, r)
  {}

  lemma FirstAbove(l: seq<Rung>, total: int, i: nat)
    requires SortedRungs(l) && i < |l| && total < l[i].gb && forall j :: 0 <= j < i ==> l[j].gb <= total
    ensures ClassOf(l, total, l[i])
  {
    forall x | x in l && total < x.gb ensures l[i].gb <= x.gb {
      var j :| 0 <= j < |l| && l[j] == x;
    }
  }

  lemma TopRung(l: seq<Rung>, total: int)
    requires SortedRungs(l) && l != [] && forall j :: 0 <= j < |l| ==> l[j].gb <= total
    ensures ClassOf(l, total, l[|l| - 1])
  {
    forall x | x in l ensures x.gb <= l[|l| - 1].gb {
      var j :| 0 <= j < |l| && l[j] == x;
    }
  }

  // ---------- what the class does not depend on ----------

  ghost predicate SizesApart(ladder: seq<Rung>) {
    forall a, b :: a in ladder && b in ladder && a.gb == b.gb ==> a == b
  }

  lemma {:induction false} TotalForgetsOrder(a: seq<int>, b: seq<int>)
    requires multiset(a) == multiset(b)
    ensures Total(a) == Total(b)
  {
    SameLength(a, b);
    if a != [] {
      var n := |a| - 1;
      assert a[n] in multiset(b);
      var j :| 0 <= j < |b| && b[j] == a[n];
      DropAtBag(a, n);
      DropAtBag(b, j);
      assert DropAt(a, n) == a[..n];
      TotalDropAt(b, j);
      SameRest(multiset(DropAt(a, n)), multiset(DropAt(b, j)), a[n]);
      TotalForgetsOrder(a[..n], DropAt(b, j));
    }
  }

  lemma {:induction false} TotalDropAt(b: seq<int>, j: nat)
    requires j < |b|
    ensures Total(b) == Total(DropAt(b, j)) + WholeGib(b[j])
  {
    var n := |b| - 1;
    if j == n {
      assert DropAt(b, j) == b[..n];
    } else {
      TotalDropAt(b[..n], j);
      assert DropAt(b, j)[..n - 1] == DropAt(b[..n], j);
    }
  }

  /** Neither the order of the disks nor the order of the ladder matters, if no two rungs
      are of one size. */
  lemma ClassIsUnique(ladder: seq<Rung>, other: seq<Rung>, a: seq<int>, b: seq<int>, r: Rung, q: Rung)
    requires SizesApart(ladder) && multiset(ladder) == multiset(other) && multiset(a) == multiset(b)
    requires ClassOf(ladder, Total(a), r) && ClassOf(other, Total(b), q)
    ensures r == q
  {
    TotalForgetsOrder(a, b);
    SameRungs(ladder, other);
  }

  /** A larger total never gets a lower class. */
  lemma ClassGrows(ladder: seq<Rung>, small: int, large: int, r: Rung, q: Rung)
    requires small <= large && ClassOf(ladder, small, r) && ClassOf(ladder, large, q)
    ensures r.gb <= q.gb
  {}

  /** Adding a disk, however small, never lowers the class. */
  lemma AddedDiskGrows(ladder: seq<Rung>, sizes: seq<int>, size: int, r: Rung, added: Rung)
    requires size >= 0
    requires ClassOf(ladder, Total(sizes), r) && ClassOf(ladder, Total(sizes + [size]), added)
    ensures r.gb <= added.gb
  {
    assert (sizes + [size])[..|sizes|] == sizes;
    GibGrows(0, size);
    ClassGrows(ladder, Total(sizes), Total(sizes + [size]), r, added);
  }

  /** Enlarging a disk never lowers the class. */
  lemma EnlargedDiskGrows(ladder: seq<Rung>, sizes: seq<int>, j: nat, size: int, r: Rung, enlarged: Rung)
    requires j < |sizes| && size >= sizes[j]
    requires ClassOf(ladder, Total(sizes), r) && ClassOf(ladder, Total(sizes[j := size]), enlarged)
    ensures r.gb <= enlarged.gb
  {
    TotalDropAt(sizes, j);
    TotalDropAt(sizes[j := size], j);
    assert DropAt(sizes, j) == DropAt(sizes[j := size], j);
    GibGrows(sizes[j], size);
    ClassGrows(ladder, Total(sizes), Total(sizes[j := size]), r, enlarged);
  }

  lemma GibGrows(a: int, b: int)
    requires a <= b
    ensures WholeGib(a) <= WholeGib(b) && (b >= 0 ==> WholeGib(b) >= 0)
  {}

  function Sum(sizes: seq<int>): int {
    if sizes == [] then 0 else Sum(sizes[..|sizes| - 1]) + sizes[|sizes| - 1]
  }

  /** The rounding loses less than one GiB per disk. */
  lemma {:induction false} RoundingLoss(sizes: seq<int>)
    ensures 0 <= Sum(sizes) - Total(sizes) * 0x4000_0000
    ensures sizes != [] ==> Sum(sizes) - Total(sizes) * 0x4000_0000 < |sizes| * 0x4000_0000
  {
    if sizes != [] { RoundingLoss(sizes[..|sizes| - 1]); }
  }
}
