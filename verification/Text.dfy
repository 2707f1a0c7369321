/** Text that is printed on one side and taken apart on another: numbers in decimal,
    lists joined and split at a separator. */
module Text {

  function Digit(d: nat): char
    requires d < 10
  {
    ('0' as int + d) as char
  }

  function Decimal(n: nat): (r: string)
    ensures r != [] && forall i :: 0 <= i < |r| ==> '0' <= r[i] <= '9'
  {
    if n < 10 then [Digit(n)] else Decimal(n / 10) + [Digit(n % 10)]
  }

  function Value(s: string): nat
    requires forall i :: 0 <= i < |s| ==> '0' <= s[i] <= '9'
  {
    if s == [] then 0 else Value(s[..|s| - 1]) * 10 + (s[|s| - 1] as int - '0' as int)
  }

  /** Printing a number loses nothing. */
  lemma {:induction false} DecimalReadsBack(n: nat)
    ensures Value(Decimal(n)) == n
  {
    if n >= 10 {
      DecimalReadsBack(n / 10);
      assert (Decimal(n / 10) + [Digit(n % 10)])[..|Decimal(n / 10)|] == Decimal(n / 10);
    } else {
      assert Value([]) == 0;
      assert [Digit(n)][..0] == [];
    }
  }

  function JoinWith(xs: seq<string>, c: char): string {
    if xs == [] then "" else if |xs| == 1 then xs[0] else xs[0] + [c] + JoinWith(xs[1..], c)
  }

  /** Go's `strings.Split` and Python's `str.split` with a separator of one character. */
  function SplitOn(s: string, c: char): (r: seq<string>)
    ensures r != []
    ensures forall x :: x in r ==> c !in x
  {
    if s == [] then [[]]
    else if s[0] == c then [[]] + SplitOn(s[1..], c)
    else
      var rest := SplitOn(s[1..], c);
      [[s[0]] + rest[0]] + rest[1..]
  }

  lemma {:induction false} SplitHead(head: string, c: char, tail: string)
    requires c !in head
    ensures SplitOn(head + [c] + tail, c) == [head] + SplitOn(tail, c)
    ensures SplitOn(head, c) == [head]
  {
    if head == [] {
      assert head + [c] + tail == [c] + tail;
    } else {
      SplitHead(head[1..], c, tail);
      assert (head + [c] + tail)[1..] == head[1..] + [c] + tail;
      assert head == [head[0]] + head[1..];
    }
  }

  /** Splitting undoes joining for parts without the separator. */
  lemma {:induction false} SplitUndoesJoin(xs: seq<string>, c: char)
    requires xs != [] && forall x :: x in xs ==> c !in x
    ensures SplitOn(JoinWith(xs, c), c) == xs
  {
    if |xs| == 1 {
      SplitHead(xs[0], c, "");
    } else {
      SplitUndoesJoin(xs[1..], c);
      SplitHead(xs[0], c, JoinWith(xs[1..], c));
    }
  }

  /** Joining undoes splitting for every text. */
  lemma {:induction false} JoinUndoesSplit(s: string, c: char)
    ensures JoinWith(SplitOn(s, c), c) == s
  {
    if s != [] {
      JoinUndoesSplit(s[1..], c);
      var rest := SplitOn(s[1..], c);
      if s[0] == c {
        assert ([[]] + rest)[1..] == rest;
      } else {
        assert ([[s[0]] + rest[0]] + rest[1..])[1..] == rest[1..];
      }
      assert s == [s[0]] + s[1..];
    }
  }
}
