/** `_cni_ipam` of `sync.py`: the static range of pod addresses of a host, computed from
    its address, the prefix length of its subnet (CIDR notation, section 3.1 of RFC 4632)
    and three configured numbers. Addresses are 32-bit integers. */
module CniIpam {
  import opened Prelude

  const ADDRESSES: nat := 0x1_0000_0000

  function Pow2(n: nat): (r: nat)
    ensures r > 0
  {
    if n == 0 then 1 else 2 * Pow2(n - 1)
  }

  // ---------- the power-of-two test ----------

  /** Bitwise and of two naturals, bit by bit. */
  function BitAnd(a: nat, b: nat): nat
    decreases a
  {
    if a == 0 || b == 0 then 0 else 2 * BitAnd(a / 2, b / 2) + (if a % 2 == 1 && b % 2 == 1 then 1 else 0)
  }

  ghost predicate IsPow2(x: nat) {
    exists k: nat :: x == Pow2(k)
  }

  /** `x & (x - 1) == 0`. For x == 0 the code takes `0 & -1`, which is 0 as well. */
  predicate PassesTest(x: nat) {
    x == 0 || BitAnd(x, x - 1) == 0
  }

  lemma {:induction false} AndOfPower(k: nat)
    ensures BitAnd(Pow2(k), Pow2(k) - 1) == 0
  {
    if k > 0 {
      AndOfPower(k - 1);
      assert Pow2(k) / 2 == Pow2(k - 1) && (Pow2(k) - 1) / 2 == Pow2(k - 1) - 1;
    }
  }

  lemma {:induction false} AndItself(a: nat)
    ensures BitAnd(a, a) == a
  {
    if a > 0 { AndItself(a / 2); }
  }

  lemma {:induction false} AndZeroIsPower(x: nat)
    requires x > 0 && BitAnd(x, x - 1) == 0
    ensures IsPow2(x)
  {
    if x == 1 {
      assert x == Pow2(0);
    } else if x % 2 == 1 {
      assert (x - 1) / 2 == x / 2;
      AndItself(x / 2);
    } else {
      assert (x - 1) / 2 == x / 2 - 1;
      AndZeroIsPower(x / 2);
      var k: nat :| x / 2 == Pow2(k);
      assert x == Pow2(k + 1);
    }
  }

  /** The test accepts exactly zero and the powers of two. */
  lemma PassesTestIff(x: nat)
    ensures PassesTest(x) <==> x == 0 || IsPow2(x)
  {
    if x > 0 && PassesTest(x) { AndZeroIsPower(x); }
    if IsPow2(x) {
      var k: nat :| x == Pow2(k);
      AndOfPower(k);
    }
  }

  // ---------- the range ----------

  datatype Config = Config(subIps: int, rangeNbIps: nat, skipIps: nat)

  /** A host address and the prefix length of its subnet. */
  datatype Interface = Interface(ip: nat, prefix: nat)

  ghost predicate IsInterface(h: Interface) {
    h.ip < ADDRESSES && h.prefix <= 32
  }

  function BlockSize(prefix: nat): nat
    requires prefix <= 32
  {
    Pow2(32 - prefix)
  }

  function Network(h: Interface): nat
    requires h.prefix <= 32
  {
    var size := BlockSize(h.prefix);
    assert h.ip % size <= h.ip by { ModBelow(h.ip, size); }
    h.ip - h.ip % size
  }

  lemma ModBelow(a: nat, b: nat)
    requires b > 0
    ensures a % b <= a && a % b < b
  {
    if a < b { assert a % b == a; }
  }

  function LastField(ip: nat): nat {
    ip % 256
  }

  datatype Range = Range(network: nat, start: nat, end: nat)

  datatype Error = BadConfig | AddressOverflow

  function Ipam(c: Config, h: Interface): (r: Result<Range, Error>)
    requires h.prefix <= 32
  {
    if !(0 <= c.subIps <= 256 && PassesTest(c.subIps)) then Err(BadConfig)
    else
      var base := if c.subIps > 0 then Network(h) + LastField(h.ip) * c.subIps else h.ip;
      var end := base + c.skipIps + c.rangeNbIps;
      if end >= ADDRESSES then Err(AddressOverflow) else Ok(Range(Network(h), base + c.skipIps, end))
  }

  predicate Disjoint(a: Range, b: Range) {
    a.end < b.start || b.end < a.start
  }

  predicate SameSubnet(a: Interface, b: Interface)
    requires a.prefix <= 32 && b.prefix <= 32
  {
    a.prefix == b.prefix && Network(a) == Network(b)
  }

  /** The subnet starts at the multiple of its size that lies at most one size below the host. */
  lemma NetworkIs(h: Interface, m: nat)
    requires IsInterface(h)
    ensures m == Network(h) <==> m % Pow2(32 - h.prefix) == 0 && m <= h.ip < m + Pow2(32 - h.prefix)
  {
    hide Pow2;
    OneMultiple(h.ip, Pow2(32 - h.prefix), m);
  }

  lemma OneMultiple(ip: nat, size: nat, m: nat)
    requires size > 0
    ensures m == ip - ip % size <==> m % size == 0 && m <= ip < m + size
  {
    ModBelow(ip, size);
    var q, k := ip / size, m / size;
    assert ip == q * size + ip % size && m == k * size + m % size;
    if m % size == 0 && m <= ip < m + size {
      if k < q { Multiples(k + 1, q, size); Distribute(k, size); }
      if q < k { Multiples(q + 1, k, size); Distribute(q, size); }
    }
    if m == ip - ip % size {
      WholeMultiple(q, size);
    }
  }

  lemma WholeMultiple(q: nat, size: nat)
    requires size > 0
    ensures (q * size) % size == 0
  {
    var m := q * size;
    var k := m / size;
    assert m == k * size + m % size;
    if k < q { Multiples(k + 1, q, size); Distribute(k, size); }
    if q < k { Multiples(q + 1, k, size); Distribute(q, size); }
  }

  /** What the document says: the subnet, and a range that begins, after the skipped
      addresses, at the host itself or at the block numbered by the last decimal field. */
  lemma RangeIs(c: Config, h: Interface)
    requires IsInterface(h) && Ipam(c, h).Ok?
    ensures var r := Ipam(c, h).value;
      && r.network == Network(h)
      && r.start == (if c.subIps > 0 then Network(h) + (h.ip % 256) * c.subIps else h.ip) + c.skipIps
      && r.end == r.start + c.rangeNbIps
  {
    hide Network, PassesTest;
  }

  /** It is refused exactly for a block size that is neither zero nor a power of two up to
      256, and it cannot be computed exactly if its end lies beyond the last address. */
  lemma RefusedIff(c: Config, h: Interface)
    requires IsInterface(h)
    ensures Ipam(c, h) == Err(BadConfig) <==> !(c.subIps == 0 || exists k: nat :: k <= 8 && c.subIps == Pow2(k))
    ensures Ipam(c, h) == Err(AddressOverflow) <==>
              && (c.subIps == 0 || exists k: nat :: k <= 8 && c.subIps == Pow2(k))
              && (if c.subIps > 0 then Network(h) + (h.ip % 256) * c.subIps else h.ip) + c.skipIps + c.rangeNbIps >= 0x1_0000_0000
  {
    Pow2Sixteen();
    if c.subIps > 0 {
      PassesTestIff(c.subIps);
      if k: nat :| c.subIps == Pow2(k) && c.subIps <= 256 {
        assert Pow2(9) == 512;
        if k > 8 { Pow2Grows(9, k); }
      }
      if k: nat :| k <= 8 && c.subIps == Pow2(k) { Pow2Grows(k, 8); }
    }
    hide Network, PassesTest, Pow2;
  }

  /** The block of a host: as many addresses as configured, numbered by the last field. */
  function BlockStart(c: Config, h: Interface): int
    requires h.prefix <= 32
  {
    Network(h) + h.ip % 256 * c.subIps
  }

  lemma BlocksApart(x: nat, y: nat, s: nat)
    requires x < y && s > 0
    ensures x * s + s <= y * s
  {
    Multiples(x + 1, y, s);
    assert (x + 1) * s == x * s + s;
  }

  /** Two hosts of one subnet get disjoint ranges exactly if their last fields differ,
      when a range is shorter than a block. */
  lemma DisjointIff(c: Config, a: Interface, b: Interface)
    requires IsInterface(a) && IsInterface(b) && SameSubnet(a, b)
    requires c.subIps > 0 && c.rangeNbIps < c.subIps && Ipam(c, a).Ok? && Ipam(c, b).Ok?
    ensures Disjoint(Ipam(c, a).value, Ipam(c, b).value) <==> a.ip % 256 != b.ip % 256
  {
    var x, y := a.ip % 256, b.ip % 256;
    if x < y { BlocksApart(x, y, c.subIps); }
    if y < x { BlocksApart(y, x, c.subIps); }
  }

  /** With the skipped addresses counted in, a range stays inside its own block. */
  lemma InsideOwnBlock(c: Config, h: Interface)
    requires IsInterface(h) && c.subIps > 0 && c.skipIps + c.rangeNbIps < c.subIps && Ipam(c, h).Ok?
    ensures var r := Ipam(c, h).value; BlockStart(c, h) <= r.start <= r.end < BlockStart(c, h) + c.subIps
  {}

  lemma {:induction false} Pow2Grows(a: nat, b: nat)
    requires a <= b
    ensures Pow2(a) <= Pow2(b)
  {
    if a < b { Pow2Grows(a, b - 1); }
  }

  /** The subnet has room for the block exactly if (last + 1) * sub_ips fits into it. */
  predicate BlockFits(c: Config, h: Interface)
    requires h.prefix <= 32
  {
    (h.ip % 256 + 1) * c.subIps <= BlockSize(h.prefix)
  }

  lemma InsideSubnet(c: Config, h: Interface)
    requires IsInterface(h) && c.subIps > 0 && c.skipIps + c.rangeNbIps < c.subIps && Ipam(c, h).Ok? && BlockFits(c, h)
    ensures var r := Ipam(c, h).value; r.network <= r.start <= r.end < r.network + BlockSize(h.prefix)
  {
    hide Network, PassesTest, BlockSize, Ipam;
    RangeIs(c, h);
    Distribute(h.ip % 256, c.subIps);
    Multiples(0, h.ip % 256, c.subIps);
  }

  /** A whole block lies inside the subnet exactly if it fits. */
  lemma BlockInsideIff(c: Config, h: Interface)
    requires IsInterface(h) && c.subIps > 0
    ensures BlockFits(c, h) <==> BlockStart(c, h) + c.subIps <= Network(h) + BlockSize(h.prefix)
  {
    Distribute(h.ip % 256, c.subIps);
  }

  /** With a prefix of at most 16 the block always fits, and no address overflows. */
  lemma WidePrefixFits(c: Config, h: Interface)
    requires IsInterface(h) && h.prefix <= 16 && 0 < c.subIps <= 256 && PassesTest(c.subIps) && c.skipIps + c.rangeNbIps < c.subIps
    ensures BlockFits(c, h) && Ipam(c, h).Ok?
    ensures var r := Ipam(c, h).value; r.network <= r.start <= r.end < r.network + BlockSize(h.prefix)
  {
    hide Pow2, PassesTest, BlockSize, Network;
    WideBlock(h.prefix);
    FieldTimes(h.ip % 256 + 1, c.subIps);
    NetworkFits(h);
    Distribute(h.ip % 256, c.subIps);
  }

  lemma WideBlock(prefix: nat)
    requires prefix <= 16
    ensures BlockSize(prefix) >= 0x1_0000
  {
    Pow2Grows(16, 32 - prefix);
    Pow2Sixteen();
    hide Pow2;
  }

  lemma Distribute(x: nat, s: nat)
    ensures (x + 1) * s == x * s + s
  {}

  lemma FieldTimes(x: nat, s: nat)
    requires x <= 256 && s <= 256
    ensures x * s <= 0x1_0000
  {}

  lemma Pow2Sixteen()
    ensures Pow2(4) == 16 && Pow2(8) == 256 && Pow2(16) == 0x1_0000
  {
    assert Pow2(8) == 256;
    assert Pow2(12) == 4096;
  }

  lemma {:induction false} Pow2Add(a: nat, b: nat)
    ensures Pow2(a + b) == Pow2(a) * Pow2(b)
  {
    if a > 0 { Pow2Add(a - 1, b); }
  }

  /** A subnet lies inside the 32-bit space. */
  lemma NetworkFits(h: Interface)
    requires IsInterface(h)
    ensures Network(h) + BlockSize(h.prefix) <= ADDRESSES
  {
    var size, count := BlockSize(h.prefix), Pow2(h.prefix);
    WholeSpace(h.prefix);
    ModBelow(h.ip, size);
    hide Pow2, BlockSize;
    AlignedFits(h.ip, size, count);
  }

  lemma WholeSpace(prefix: nat)
    requires prefix <= 32
    ensures BlockSize(prefix) * Pow2(prefix) == ADDRESSES
  {
    Pow2Add(32 - prefix, prefix);
    Pow2Add(16, 16);
    Pow2Sixteen();
    hide Pow2;
  }

  lemma AlignedFits(ip: nat, size: nat, count: nat)
    requires size > 0 && ip < size * count
    ensures ip - ip % size + size <= size * count
  {
    var q := ip / size;
    assert ip == q * size + ip % size;
    if q >= count { Multiples(count, q, size); }
    Multiples(q + 1, count, size);
    Distribute(q, size);
  }

  lemma Multiples(a: nat, b: nat, s: nat)
    requires a <= b
    ensures a * s <= b * s
  {}

  /** Without blocks the range starts at the host's own address, and two ranges are apart
      exactly if the hosts are farther apart than a range is long. */
  lemma WithoutBlocks(c: Config, a: Interface, b: Interface)
    requires IsInterface(a) && IsInterface(b) && c.subIps == 0 && Ipam(c, a).Ok? && Ipam(c, b).Ok?
    ensures Ipam(c, a).value.start == a.ip + c.skipIps
    ensures Disjoint(Ipam(c, a).value, Ipam(c, b).value) <==> a.ip + c.rangeNbIps < b.ip || b.ip + c.rangeNbIps < a.ip
  {
    hide Pow2, BlockSize, Network;
  }

  /** In a subnet narrower than 256 addresses, a host whose last field is not below the
      subnet's size has its block outside. */
  lemma NarrowSticksOut(c: Config, h: Interface)
    requires IsInterface(h) && h.prefix > 24 && c.subIps > 0 && h.ip % 256 + 1 > BlockSize(h.prefix)
    ensures !BlockFits(c, h)
  {
    Multiples(1, c.subIps, h.ip % 256 + 1);
  }
}
