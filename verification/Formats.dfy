/** What the column formats accept, told without walking through the text: an address is
    four printed numbers, a MAC is six printed bytes, and lowering it changes no byte. */
module Formats {
  import opened Prelude
  import opened Text
  import opened Machines
  import opened PlanRun

  // ---------- addresses ----------

  /** Decimal is the only way to write a number without a leading zero. */
  lemma {:induction false} DecimalUnique(s: string)
    requires s != [] && (forall i :: 0 <= i < |s| ==> '0' <= s[i] <= '9') && (|s| > 1 ==> s[0] != '0')
    ensures Decimal(Value(s)) == s && (s[0] != '0' ==> Value(s) > 0)
  {
    var head, d := s[..|s| - 1], s[|s| - 1];
    assert s == head + [d];
    LastDigit(head, d);
    if |s| > 1 {
      DecimalUnique(head);
    }
  }

  lemma LastDigit(head: string, d: char)
    requires '0' <= d <= '9' && forall i :: 0 <= i < |head| ==> '0' <= head[i] <= '9'
    ensures Value(head + [d]) == Value(head) * 10 + (d as int - '0' as int)
    ensures Decimal(Value(head + [d])) == (if Value(head) == 0 then [] else Decimal(Value(head))) + [d]
    ensures head == [] ==> Value(head) == 0
  {
    var s, v := head + [d], Value(head + [d]);
    assert s[..|head|] == head && s[|s| - 1] == d;
    assert v / 10 == Value(head) && v % 10 == d as int - '0' as int;
  }

  lemma ShortValue(s: string)
    requires 1 <= |s| <= 3 && forall i :: 0 <= i < |s| ==> '0' <= s[i] <= '9'
    ensures |s| < 3 ==> Value(s) <= 99
    ensures |s| == 3 ==> Value(s) == 100 * (s[0] as int - '0' as int) + 10 * (s[1] as int - '0' as int) + (s[2] as int - '0' as int)
  {
    var a := s[..|s| - 1];
    var b := if a == [] then a else a[..|a| - 1];
    assert |s| == 3 ==> b == [s[0]] && a[|a| - 1] == s[1];
    assert [s[0]][..0] == [] && Value([]) == 0;
    assert Value([s[0]]) == s[0] as int - '0' as int;
  }

  /** A field of an address is a number of at most 255, printed. */
  lemma OctetIff(s: string)
    ensures IsOctet(s) <==> exists v: nat :: v <= 255 && s == Decimal(v)
  {
    if IsOctet(s) {
      DecimalUnique(s);
      ShortValue(s);
      var v := Value(s);
      assert v <= 255 && s == Decimal(v);
    }
    if v: nat :| v <= 255 && s == Decimal(v) {
      PrintedOctet(v);
    }
  }

  lemma TwoDigits(v: nat)
    requires 10 <= v < 100
    ensures Decimal(v) == [Digit(v / 10), Digit(v % 10)]
  {
    assert Decimal(v / 10) == [Digit(v / 10)];
  }

  lemma PrintedOctet(v: nat)
    requires v <= 255
    ensures IsOctet(Decimal(v))
  {
    if v >= 100 {
      TwoDigits(v / 10);
      assert Decimal(v) == Decimal(v / 10) + [Digit(v % 10)];
      assert v / 10 / 10 == 1 || (v / 10 / 10 == 2 && v / 10 % 10 <= 5);
    } else if v >= 10 {
      TwoDigits(v);
    }
  }

  ghost predicate AllOctets(parts: seq<string>, fields: nat) {
    |parts| == fields && forall x :: x in parts ==> IsOctet(x)
  }

  lemma {:induction false} DottedIff(s: string, fields: nat)
    requires fields > 0
    ensures IsDotted(s, fields) <==> AllOctets(SplitOn(s, '.'), fields)
  {
    if IsDotted(s, fields) { DottedSplits(s, fields); }
    if AllOctets(SplitOn(s, '.'), fields) {
      JoinUndoesSplit(s, '.');
      JoinedIsDotted(SplitOn(s, '.'));
    }
  }

  ghost predicate DottedAt(s: string, fields: nat, i: nat) {
    i < |s| && s[i] == '.' && IsOctet(s[..i]) && IsDotted(s[i + 1..], fields)
  }

  lemma DottedSays(s: string, fields: nat)
    requires fields > 0
    ensures IsDotted(s, 1) <==> IsOctet(s)
    ensures IsDotted(s, fields + 1) <==> exists i: nat :: DottedAt(s, fields, i)
  {
    hide IsOctet;
    if IsDotted(s, fields + 1) {
      var i: nat :| i < |s| && s[i] == '.' && IsOctet(s[..i]) && IsDotted(s[i + 1..], fields);
      assert DottedAt(s, fields, i);
    }
  }

  lemma PlainOctet(s: string)
    ensures IsOctet(s) ==> '.' !in s
  {}

  lemma {:induction false} DottedSplits(s: string, fields: nat)
    requires fields > 0 && IsDotted(s, fields)
    ensures AllOctets(SplitOn(s, '.'), fields)
  {
    hide IsOctet, IsDotted, SplitOn;
    DottedSays(s, if fields > 1 then fields - 1 else 1);
    if fields == 1 {
      PlainOctet(s);
      SplitHead(s, '.', "");
    } else {
      var i: nat :| DottedAt(s, fields - 1, i);
      PlainOctet(s[..i]);
      SplitHead(s[..i], '.', s[i + 1..]);
      assert s == s[..i] + ['.'] + s[i + 1..];
      DottedSplits(s[i + 1..], fields - 1);
    }
  }

  lemma {:induction false} JoinedIsDotted(parts: seq<string>)
    requires parts != [] && AllOctets(parts, |parts|)
    ensures IsDotted(JoinWith(parts, '.'), |parts|)
  {
    hide IsOctet, IsDotted;
    assert parts[0] in parts;
    if |parts| > 1 {
      var i, rest := |parts[0]|, JoinWith(parts[1..], '.');
      var s := JoinWith(parts, '.');
      assert s == parts[0] + ['.'] + rest;
      hide JoinWith;
      JoinedIsDotted(parts[1..]);
      DottedSays(s, |parts| - 1);
      assert s[..i] == parts[0] && s[i] == '.' && s[i + 1..] == rest;
      assert DottedAt(s, |parts| - 1, i);
    } else {
      DottedSays(parts[0], 1);
    }
  }

  ghost predicate IsAddress(s: string, a: nat, b: nat, c: nat, d: nat) {
    s == Decimal(a) + "." + Decimal(b) + "." + Decimal(c) + "." + Decimal(d)
  }

  /** An address is four numbers of at most 255, printed with dots between them. */
  lemma AddressIff(s: string)
    ensures IsIpv4(s) <==> exists a: nat, b: nat, c: nat, d: nat :: a <= 255 && b <= 255 && c <= 255 && d <= 255 && IsAddress(s, a, b, c, d)
  {
    hide IsOctet, IsDotted, SplitOn, JoinWith, Decimal;
    DottedIff(s, 4);
    if IsIpv4(s) {
      var p := SplitOn(s, '.');
      var a := ReadOctet(p[0]);
      var b := ReadOctet(p[1]);
      var c := ReadOctet(p[2]);
      var d := ReadOctet(p[3]);
      JoinUndoesSplit(s, '.');
      FourJoined(p);
      assert IsAddress(s, a, b, c, d);
    }
    if a: nat, b: nat, c: nat, d: nat :| a <= 255 && b <= 255 && c <= 255 && d <= 255 && IsAddress(s, a, b, c, d) {
      PrintedAddress(a, b, c, d);
    }
  }

  lemma PrintedAddress(a: nat, b: nat, c: nat, d: nat)
    requires a <= 255 && b <= 255 && c <= 255 && d <= 255
    ensures IsIpv4(Decimal(a) + "." + Decimal(b) + "." + Decimal(c) + "." + Decimal(d))
  {
    hide IsOctet, IsDotted, JoinWith, Decimal;
    var p := [Decimal(a), Decimal(b), Decimal(c), Decimal(d)];
    FourJoined(p);
    PrintedOctet(a);
    PrintedOctet(b);
    PrintedOctet(c);
    PrintedOctet(d);
    JoinedIsDotted(p);
  }

  lemma ReadOctet(s: string) returns (v: nat)
    requires IsOctet(s)
    ensures v <= 255 && s == Decimal(v)
  {
    OctetIff(s);
    v :| v <= 255 && s == Decimal(v);
  }

  lemma FourJoined(p: seq<string>)
    requires |p| == 4
    ensures JoinWith(p, '.') == p[0] + "." + p[1] + "." + p[2] + "." + p[3]
  {
    assert p[1..][1..] == p[2..] && p[2..][1..] == p[3..] && p[3..] == [p[3]];
    assert JoinWith(p[2..], '.') == p[2] + ['.'] + p[3];
  }

  // ---------- MACs ----------

  /** The value of a hexadecimal digit of either case. */
  ghost function HexValue(c: char): nat {
    if '0' <= c <= '9' then c as int - '0' as int
    else if 'a' <= c <= 'f' then c as int - 'a' as int + 10
    else if 'A' <= c <= 'F' then c as int - 'A' as int + 10
    else 16
  }

  /** The same six bytes. */
  ghost predicate SameBytes(a: string, b: string) {
    |a| == |b| && forall i :: 0 <= i < |a| ==> HexValue(a[i]) == HexValue(b[i])
  }

  /** Two MACs are lowered to one text exactly if they write the same bytes. */
  lemma SameBytesIff(a: string, b: string)
    requires IsMac(a) && IsMac(b)
    ensures Lower(a) == Lower(b) <==> SameBytes(a, b)
    ensures IsMac(Lower(a)) && SameBytes(Lower(a), a)
  {
    forall c: char ensures IsHex(c) <==> HexValue(c) < 16 {}
    forall i | 0 <= i < 17
      ensures HexValue(Lower(a)[i]) == HexValue(a[i]) && HexValue(Lower(b)[i]) == HexValue(b[i])
      ensures Lower(a)[i] == Lower(b)[i] <==> HexValue(a[i]) == HexValue(b[i])
    {
      assert if i % 3 == 2 then a[i] == ':' && b[i] == ':' else IsHex(a[i]) && IsHex(b[i]);
    }
    forall i | 0 <= i < 17 ensures if i % 3 == 2 then Lower(a)[i] == ':' else IsHex(Lower(a)[i]) {
      assert if i % 3 == 2 then a[i] == ':' else IsHex(a[i]);
    }
  }
}
