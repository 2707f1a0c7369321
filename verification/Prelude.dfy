/** Shared vocabulary: optional values, outcomes, the order on text that Python's
    `sort` uses for strings, sorted lists, and the bag of values of a table. */
module Prelude {

  datatype Option<+T> = None | Some(value: T)

  datatype Result<+T, +E> = Ok(value: T) | Err(error: E)

  // ---------- the order on text ----------

  /** Lexicographic order on code points. */
  predicate LessEq(a: string, b: string) {
    a == [] || (b != [] && (a[0] < b[0] || (a[0] == b[0] && LessEq(a[1..], b[1..]))))
  }

  lemma {:induction false} LessEqTotal(a: string, b: string)
    ensures LessEq(a, b) || LessEq(b, a)
  {
    if a != [] && b != [] && a[0] == b[0] {
      LessEqTotal(a[1..], b[1..]);
    }
  }

  lemma {:induction false} LessEqTransitive(a: string, b: string, c: string)
    requires LessEq(a, b) && LessEq(b, c)
    ensures LessEq(a, c)
  {
    if a != [] && a[0] == b[0] && b[0] == c[0] {
      LessEqTransitive(a[1..], b[1..], c[1..]);
    }
  }

  lemma {:induction false} LessEqAntisymmetric(a: string, b: string)
    requires LessEq(a, b) && LessEq(b, a)
    ensures a == b
  {
    if a != [] {
      LessEqAntisymmetric(a[1..], b[1..]);
      assert a == [a[0]] + a[1..] && b == [b[0]] + b[1..];
    }
  }

  // ---------- sorting by a textual key ----------

  ghost predicate SortedBy<T(!new)>(key: T -> string, xs: seq<T>) {
    forall i, j :: 0 <= i < j < |xs| ==> LessEq(key(xs[i]), key(xs[j]))
  }

  /** Insert x before the first element whose key is not below x's. */
  function InsertBy<T(!new)>(key: T -> string, x: T, xs: seq<T>): (r: seq<T>)
    ensures multiset(r) == multiset(xs) + multiset{x}
    ensures SortedBy(key, xs) ==> SortedBy(key, r)
  {
    if xs == [] then [x]
    else if LessEq(key(x), key(xs[0])) then
      assert SortedBy(key, xs) ==> SortedBy(key, [x] + xs) by { InsertFront(key, x, xs); }
      [x] + xs
    else
      var tail := InsertBy(key, x, xs[1..]);
      assert multiset([xs[0]] + tail) == multiset(xs) + multiset{x} by {
        assert xs == [xs[0]] + xs[1..];
      }
      assert SortedBy(key, xs) ==> SortedBy(key, [xs[0]] + tail) by { InsertLater(key, x, xs, tail); }
      [xs[0]] + tail
  }

  lemma InsertFront<T(!new)>(key: T -> string, x: T, xs: seq<T>)
    requires xs != [] && LessEq(key(x), key(xs[0]))
    ensures SortedBy(key, xs) ==> SortedBy(key, [x] + xs)
  {
    if SortedBy(key, xs) {
      var r := [x] + xs;
      forall i, j | 0 <= i < j < |r| ensures LessEq(key(r[i]), key(r[j])) {
        if i == 0 && j > 1 { LessEqTransitive(key(x), key(xs[0]), key(xs[j - 1])); }
      }
    }
  }

  lemma InsertLater<T(!new)>(key: T -> string, x: T, xs: seq<T>, tail: seq<T>)
    requires xs != [] && !LessEq(key(x), key(xs[0]))
    requires multiset(tail) == multiset(xs[1..]) + multiset{x}
    requires SortedBy(key, xs[1..]) ==> SortedBy(key, tail)
    ensures SortedBy(key, xs) ==> SortedBy(key, [xs[0]] + tail)
  {
    if SortedBy(key, xs) {
      var r := [xs[0]] + tail;
      forall j | 0 < j < |r| ensures LessEq(key(xs[0]), key(r[j])) {
        assert r[j] in multiset(tail);
        if r[j] == x {
          LessEqTotal(key(x), key(xs[0]));
        } else {
          assert r[j] in xs[1..];
        }
      }
    }
  }

  /** What `xs.sort(key=...)` leaves in the list. */
  function SortBy<T(!new)>(key: T -> string, xs: seq<T>): (r: seq<T>)
    ensures multiset(r) == multiset(xs)
    ensures SortedBy(key, r)
  {
    if xs == [] then [] else
      assert multiset(xs) == multiset(xs[1..]) + multiset{xs[0]} by { assert xs == [xs[0]] + xs[1..]; }
      InsertBy(key, xs[0], SortBy(key, xs[1..]))
  }

  lemma SameLength<T>(xs: seq<T>, ys: seq<T>)
    requires multiset(xs) == multiset(ys)
    ensures |xs| == |ys|
  {
    assert |multiset(xs)| == |xs|;
    assert |multiset(ys)| == |ys|;
  }

  /** Two sorted arrangements of the same elements are the same list, provided
      the key tells the elements apart. */
  lemma {:induction false} SortedIsUnique<T(!new)>(key: T -> string, xs: seq<T>, ys: seq<T>)
    requires SortedBy(key, xs) && SortedBy(key, ys) && multiset(xs) == multiset(ys)
    requires TellsApart(key, xs)
    ensures xs == ys
  {
    hide SortedBy, TellsApart;
    SameLength(xs, ys);
    if xs != [] {
      SameFirst(key, xs, ys);
      SameTails(xs, ys);
      TailsSorted(key, xs);
      TailsSorted(key, ys);
      SortedIsUnique(key, xs[1..], ys[1..]);
      assert xs == [xs[0]] + xs[1..] && ys == [ys[0]] + ys[1..];
    }
  }

  lemma SameTails<T>(xs: seq<T>, ys: seq<T>)
    requires multiset(xs) == multiset(ys) && xs != [] && ys != [] && xs[0] == ys[0]
    ensures multiset(xs[1..]) == multiset(ys[1..])
  {
    DropFirst(xs);
    DropFirst(ys);
  }

  lemma SameFirst<T(!new)>(key: T -> string, xs: seq<T>, ys: seq<T>)
    requires SortedBy(key, xs) && SortedBy(key, ys) && multiset(xs) == multiset(ys)
    requires TellsApart(key, xs) && xs != [] && ys != []
    ensures xs[0] == ys[0]
  {
    var a, b := xs[0], ys[0];
    assert b in multiset(xs) && a in multiset(ys);
    FirstIsLeast(key, xs, b);
    FirstIsLeast(key, ys, a);
    LessEqAntisymmetric(key(a), key(b));
  }

  lemma TailsSorted<T(!new)>(key: T -> string, xs: seq<T>)
    requires xs != []
    ensures SortedBy(key, xs) ==> SortedBy(key, xs[1..])
    ensures TellsApart(key, xs) ==> TellsApart(key, xs[1..])
  {}

  /** No two different elements of the list share a key. */
  ghost predicate TellsApart<T(!new)>(key: T -> string, xs: seq<T>) {
    forall a, b :: a in xs && b in xs && key(a) == key(b) ==> a == b
  }

  lemma FirstIsLeast<T(!new)>(key: T -> string, xs: seq<T>, x: T)
    requires SortedBy(key, xs) && x in xs
    ensures LessEq(key(xs[0]), key(x))
  {
    var j :| 0 <= j < |xs| && xs[j] == x;
    if j == 0 { LessEqTotal(key(x), key(x)); }
  }

  lemma DropFirst<T>(xs: seq<T>)
    requires xs != []
    ensures multiset(xs[1..]) == multiset(xs) - multiset{xs[0]}
  {
    assert xs == [xs[0]] + xs[1..];
  }

  function Itself(s: string): string { s }

  /** `ips.sort()`, a plain list of strings. */
  function Sorted(xs: seq<string>): (r: seq<string>)
    ensures multiset(r) == multiset(xs)
    ensures SortedBy(Itself, r)
  {
    SortBy(Itself, xs)
  }

  /** Sorting forgets the order in which a list arrived. */
  lemma SortedForgetsOrder(xs: seq<string>, ys: seq<string>)
    requires multiset(xs) == multiset(ys)
    ensures Sorted(xs) == Sorted(ys)
  {
    SortedIsUnique(Itself, Sorted(xs), Sorted(ys));
  }

  // ---------- lists without repetition ----------

  ghost predicate Distinct<T>(xs: seq<T>) {
    forall i, j :: 0 <= i < j < |xs| ==> xs[i] != xs[j]
  }

  ghost function Elements<T>(xs: seq<T>): set<T> {
    set x | x in xs
  }

  lemma {:induction false} DistinctCardinality<T>(xs: seq<T>)
    requires Distinct(xs)
    ensures |Elements(xs)| == |xs|
  {
    if xs != [] {
      var rest := xs[1..];
      DistinctCardinality(rest);
      assert Elements(xs) == Elements(rest) + {xs[0]};
    }
  }

  lemma {:induction false} SubsetIsSmaller<T>(a: set<T>, b: set<T>)
    requires a <= b
    ensures |a| <= |b|
  {
    if a != {} {
      var x :| x in a;
      SubsetIsSmaller(a - {x}, b - {x});
    }
  }

  lemma {:induction false} PermutationDistinct<T>(xs: seq<T>, ys: seq<T>)
    requires Distinct(xs) && multiset(xs) == multiset(ys)
    ensures Distinct(ys)
  {
    forall i, j | 0 <= i < j < |ys| ensures ys[i] != ys[j] {
      if ys[i] == ys[j] {
        CountTwice(ys, i, j);
        CountOnce(xs, ys[i]);
      }
    }
  }

  lemma CountTwice<T>(ys: seq<T>, i: nat, j: nat)
    requires i < j < |ys| && ys[i] == ys[j]
    ensures multiset(ys)[ys[i]] >= 2
  {
    assert ys == ys[..j] + ys[j..];
    assert ys[i] in ys[..j] && ys[j] in ys[j..];
  }

  lemma {:induction false} CountOnce<T>(xs: seq<T>, x: T)
    requires Distinct(xs)
    ensures multiset(xs)[x] <= 1
  {
    if xs != [] {
      var n := |xs| - 1;
      CountOnce(xs[..n], x);
      assert xs == xs[..n] + [xs[n]];
      if xs[n] == x { assert x !in xs[..n]; }
    }
  }

  lemma {:induction false} SameElements<T>(xs: seq<T>, ys: seq<T>)
    requires Distinct(xs) && Distinct(ys) && Elements(xs) == Elements(ys)
    ensures multiset(xs) == multiset(ys)
  {
    forall x ensures multiset(xs)[x] == multiset(ys)[x] {
      CountOnce(xs, x);
      CountOnce(ys, x);
      assert x in xs <==> x in Elements(xs);
      assert x in ys <==> x in Elements(ys);
      assert x in multiset(xs) <==> x in xs;
      assert x in multiset(ys) <==> x in ys;
    }
  }

  ghost function DropAt<T>(xs: seq<T>, j: nat): (r: seq<T>)
    requires j < |xs|
    ensures |r| == |xs| - 1
  {
    xs[..j] + xs[j + 1..]
  }

  lemma DropAtBag<T>(xs: seq<T>, j: nat)
    requires j < |xs|
    ensures multiset(xs) == multiset(DropAt(xs, j)) + multiset{xs[j]}
  {
    assert xs == xs[..j] + [xs[j]] + xs[j + 1..];
  }

  lemma DistinctDropAt<T>(xs: seq<T>, j: nat)
    requires Distinct(xs) && j < |xs|
    ensures Distinct(DropAt(xs, j)) && Elements(DropAt(xs, j)) == Elements(xs) - {xs[j]}
  {
    var r := DropAt(xs, j);
    assert forall i :: 0 <= i < |r| ==> r[i] == xs[if i < j then i else i + 1];
    forall x | x in Elements(xs) - {xs[j]} ensures x in Elements(r) {
      var i :| 0 <= i < |xs| && xs[i] == x;
      assert r[if i < j then i else i - 1] == x;
    }
  }

  lemma SameRest<T>(a: multiset<T>, b: multiset<T>, x: T)
    requires a + multiset{x} == b + multiset{x}
    ensures a == b
  {
    assert (a + multiset{x}) - multiset{x} == a && (b + multiset{x}) - multiset{x} == b;
  }

  // ---------- the bag of values of a table ----------

  /** The values of a finite map, each as often as it occurs. */
  ghost function Bag<K, V>(rows: map<K, V>): multiset<V> {
    if rows == map[] then multiset{}
    else
      var k := SomeKey(rows);
      Bag(rows - {k}) + multiset{rows[k]}
  }

  lemma BagOfNothing<K, V>(rows: map<K, V>)
    requires rows == map[]
    ensures Bag(rows) == multiset{}
  {}

  ghost function SomeKey<K, V>(rows: map<K, V>): K
    requires rows != map[]
    ensures SomeKey(rows) in rows
  {
    var k :| k in rows; k
  }

  lemma {:induction false} BagRemove<K, V>(rows: map<K, V>, k: K)
    requires k in rows
    ensures Bag(rows) == Bag(rows - {k}) + multiset{rows[k]}
    decreases rows.Keys
  {
    var c := SomeKey(rows);
    if c != k {
      var others := rows - {c} - {k};
      assert others == rows - {k} - {c};
      BagRemove(rows - {c}, k);
      assert (rows - {k})[c] == rows[c];
      BagRemove(rows - {k}, c);
    }
  }

  lemma BagInsert<K, V>(rows: map<K, V>, k: K, v: V)
    requires k !in rows
    ensures Bag(rows[k := v]) == Bag(rows) + multiset{v}
  {
    BagRemove(rows[k := v], k);
    assert rows[k := v] - {k} == rows;
  }

  lemma {:induction false} BagMember<K, V>(rows: map<K, V>, v: V)
    ensures v in Bag(rows) <==> exists k :: k in rows && rows[k] == v
    decreases rows.Keys
  {
    if rows != map[] {
      var k := SomeKey(rows);
      var rest := rows - {k};
      BagMember(rest, v);
      if v == rows[k] || v in Bag(rest) {
        if v != rows[k] {
          var j :| j in rest && rest[j] == v;
          assert j in rows && rows[j] == v;
        }
      }
      if j :| j in rows && rows[j] == v && j != k {
        assert j in rest && rest[j] == v;
      }
    }
  }
}
