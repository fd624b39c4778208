/** IPv4 addresses as byte strings (NextIP and the gateway choice in internal/pkg/ovn/common.go). */
module Address {
  import opened Wrappers

  newtype byte = b: int | 0 <= b < 256

  type Bytes = seq<byte>

  /** big.Int.SetBytes: the big-endian value. */
  function Value(bs: Bytes): nat {
    if bs == [] then 0 else Value(bs[..|bs| - 1]) * 256 + bs[|bs| - 1] as int
  }

  /** big.Int.Bytes: as few bytes as the value needs. */
  function BytesOf(v: nat): (bs: Bytes)
    ensures bs == [] || bs[0] != 0
  {
    if v == 0 then [] else BytesOf(v / 256) + [(v % 256) as byte]
  }

  /** The bytes of the value after that of bs. */
  function Successor(bs: Bytes): Bytes {
    BytesOf(Value(bs) + 1)
  }

  const MAPPED: Bytes := [0, 0, 0, 0, 0, 0, 0, 0, 0, 0, 255, 255]

  /** To4, or else To16: an IPv4-mapped address is cut to its four bytes, and what is no address
      has no bytes. */
  function Normalized(ip: Bytes): Bytes {
    if |ip| == 16 && ip[..12] == MAPPED then ip[12..]
    else if |ip| == 4 || |ip| == 16 then ip
    else []
  }

  function NextIP(ip: Bytes): Bytes {
    Successor(Normalized(ip))
  }

  // ----- The two conversions -----

  lemma {:induction false} ValueOfBytes(v: nat)
    ensures Value(BytesOf(v)) == v
  {
    if v > 0 {
      ValueOfBytes(v / 256);
      var bs := BytesOf(v);
      assert bs[..|bs| - 1] == BytesOf(v / 256);
    }
  }

  lemma {:induction false} BytesOfValue(bs: Bytes)
    requires bs == [] || bs[0] != 0
    ensures BytesOf(Value(bs)) == bs
    ensures bs != [] ==> Value(bs) > 0
  {
    if bs != [] {
      var n := |bs| - 1;
      if n > 0 {
        assert bs[..n][0] == bs[0];
        BytesOfValue(bs[..n]);
      }
      assert Value(bs) / 256 == Value(bs[..n]) && Value(bs) % 256 == bs[n] as int;
      assert bs == bs[..n] + [bs[n]];
    }
  }

  // ----- Incrementing with carries -----

  /** Adding one from the last byte on; an overflowing byte becomes 0 and carries. */
  function Incremented(bs: Bytes): (r: Bytes)
    ensures |r| == |bs|
  {
    if bs == [] then []
    else
      var n := |bs| - 1;
      if bs[n] < 255 then bs[..n] + [bs[n] + 1] else Incremented(bs[..n]) + [0]
  }

  function Power256(n: nat): nat {
    if n == 0 then 1 else 256 * Power256(n - 1)
  }

  predicate AllOnes(bs: Bytes) {
    forall i :: 0 <= i < |bs| ==> bs[i] == 255
  }

  lemma {:induction false} IncrementedValue(bs: Bytes)
    ensures AllOnes(bs) ==> Value(Incremented(bs)) == 0 && Value(bs) + 1 == Power256(|bs|)
    ensures !AllOnes(bs) ==> Value(Incremented(bs)) == Value(bs) + 1
  {
    if bs != [] {
      var n := |bs| - 1;
      var r := Incremented(bs);
      if bs[n] < 255 {
        assert r[..n] == bs[..n];
      } else {
        IncrementedValue(bs[..n]);
        assert r[..n] == Incremented(bs[..n]);
        assert AllOnes(bs) <==> AllOnes(bs[..n]);
      }
    }
  }

  /** A carry reaches the first byte only when all the others are 255. */
  lemma {:induction false} IncrementedFirst(bs: Bytes)
    requires bs != []
    ensures Incremented(bs)[0] == 0 <==> AllOnes(bs) || (bs[0] == 0 && !AllOnes(bs[1..]))
  {
    var n := |bs| - 1;
    if n > 0 {
      IncrementedFirst(bs[..n]);
      assert bs[1..][..n - 1] == bs[..n][1..];
      if bs[n] == 255 {
        assert AllOnes(bs[1..]) <==> AllOnes(bs[..n][1..]);
      } else {
        assert bs[1..][n - 1] == bs[n];
      }
    }
  }

  /** NextIP on any byte string keeps the length of its normal form, and is then that form with one
      added and the carries propagated, exactly when it does not overflow and the result has a
      non-zero first byte; otherwise leading zero bytes are lost, or one byte is gained. */
  lemma NextIPKeepsLength(ip: Bytes)
    ensures var n := Normalized(ip);
      |NextIP(ip)| == |n| <==> !AllOnes(n) && (n[0] != 0 || AllOnes(n[1..]))
    ensures var n := Normalized(ip);
      |NextIP(ip)| == |n| ==> NextIP(ip) == Incremented(n) && Value(NextIP(ip)) == Value(n) + 1
  {
    var n := Normalized(ip);
    if AllOnes(n) {
      SuccessorOverflows(n);
    } else {
      IncrementedFirst(n);
      if Incremented(n)[0] != 0 {
        SuccessorCarries(n);
      } else {
        SuccessorShrinks(n);
      }
    }
  }

  lemma SuccessorOverflows(bs: Bytes)
    requires AllOnes(bs)
    ensures |Successor(bs)| != |bs|
  {
    IncrementedValue(bs);
    ValueOfBytes(Value(bs) + 1);
    ValueBelow(Successor(bs));
  }

  lemma SuccessorCarries(bs: Bytes)
    requires bs != [] && !AllOnes(bs) && Incremented(bs)[0] != 0
    ensures Successor(bs) == Incremented(bs) && Value(Successor(bs)) == Value(bs) + 1
  {
    var r := Incremented(bs);
    assert Value(r) == Value(bs) + 1 by { IncrementedValue(bs); }
    assert BytesOf(Value(r)) == r by { BytesOfValue(r); }
  }

  lemma SuccessorShrinks(bs: Bytes)
    requires bs != [] && !AllOnes(bs) && Incremented(bs)[0] == 0
    ensures |Successor(bs)| != |bs|
  {
    IncrementedValue(bs);
    LengthOfSmall(Incremented(bs));
  }

  /** A byte string that does not begin with zero is worth at least 256^(length - 1). */
  lemma {:induction false} ValueAtLeast(bs: Bytes)
    requires bs != [] && bs[0] != 0
    ensures Value(bs) >= Power256(|bs| - 1)
  {
    if |bs| > 1 {
      assert bs[..|bs| - 1][0] == bs[0];
      ValueAtLeast(bs[..|bs| - 1]);
    }
  }

  lemma {:induction false} ValueBelow(bs: Bytes)
    ensures Value(bs) < Power256(|bs|)
  {
    if bs != [] {
      ValueBelow(bs[..|bs| - 1]);
    }
  }

  lemma {:induction false} LeadingZero(bs: Bytes)
    requires bs != [] && bs[0] == 0
    ensures Value(bs) == Value(bs[1..])
  {
    if |bs| > 1 {
      var n := |bs| - 1;
      LeadingZero(bs[..n]);
      assert bs[..n][1..] == bs[1..][..n - 1] && bs[1..][n - 1] == bs[n];
    }
  }

  lemma LengthOfSmall(r: Bytes)
    requires r != [] && r[0] == 0
    ensures |BytesOf(Value(r))| != |r|
  {
    LeadingZero(r);
    ValueBelow(r[1..]);
    var bs := BytesOf(Value(r));
    ValueOfBytes(Value(r));
    if |bs| == |r| {
      ValueAtLeast(bs);
    }
  }

  // ----- The gateway of a switch -----

  function Power2(n: nat): (p: nat)
    ensures p >= 1
  {
    if n == 0 then 1 else 2 * Power2(n - 1)
  }

  // An IPv4 subnet as ParseCIDR gives it: the network address and the prefix length.
  datatype Subnet = Subnet(network: Bytes, prefix: nat)

  predicate ValidSubnet(s: Subnet) {
    |s.network| == 4 && s.prefix <= 32 && Value(s.network) % Power2(32 - s.prefix) == 0
  }

  predicate InSubnet(s: Subnet, ip: Bytes)
    requires ValidSubnet(s)
  {
    |ip| == 4 && Value(ip) / Power2(32 - s.prefix) == Value(s.network) / Power2(32 - s.prefix)
  }

  /** createOvnLS: a given gateway that can be read is used, else the first address of the subnet. */
  function ChosenGateway(s: Subnet, given: Option<Bytes>): Bytes {
    match given case Some(ip) => ip case None => NextIP(s.network)
  }

  lemma Multiple(m: nat, d: int)
    ensures d >= 1 ==> m * d >= m
    ensures d <= -1 ==> m * d <= 0 - m
  {
  }

  lemma DivUnique(x: nat, m: nat, q: nat, r: nat)
    requires r < m && x == m * q + r
    ensures x / m == q
  {
    var d := x / m - q;
    assert m * (x / m) + x % m == x;
    assert m * d == r - x % m;
    Multiple(m, d);
  }

  /** The address after a block's first one is in the same block. */
  lemma SameBlock(v: nat, n: nat)
    requires n >= 1 && v % Power2(n) == 0
    ensures (v + 1) / Power2(n) == v / Power2(n)
  {
    var m := Power2(n);
    assert v == m * (v / m);
    assert m >= 2;
    DivUnique(v + 1, m, v / m, 1);
  }

  lemma EvenFactor(half: nat, q: nat)
    ensures (2 * half) * q % 2 == 0
  {
    assert (2 * half) * q == 2 * (half * q);
  }

  /** A block of two or more begins at an even value. */
  lemma BlockEven(v: nat, n: nat)
    requires n >= 1 && v % Power2(n) == 0
    ensures v % 2 == 0
  {
    var m := Power2(n);
    assert v == m * (v / m);
    EvenFactor(Power2(n - 1), v / m);
  }

  lemma EvenByte(v: nat, x: nat, b: nat)
    requires v % 2 == 0 && v == x * 256 + b
    ensures b % 2 == 0
  {
  }

  lemma LastByteEven(s: Subnet)
    requires ValidSubnet(s) && s.prefix <= 31
    ensures s.network[3] as int % 2 == 0
  {
    var n := s.network;
    BlockEven(Value(n), 32 - s.prefix);
    EvenByte(Value(n), Value(n[..3]), n[3] as int);
  }

  /** Without a usable gateway, the default one lies in the subnet and is not the network's own
      address exactly when the subnet has room for it and its first byte is not zero. */
  lemma DefaultGatewayInside(s: Subnet)
    requires ValidSubnet(s)
    ensures InSubnet(s, ChosenGateway(s, None)) && ChosenGateway(s, None) != s.network <==>
            s.prefix <= 31 && s.network[0] != 0
  {
    var n := s.network;
    assert n[1..][2] == n[3] && Normalized(n) == n;
    NextIPKeepsLength(n);
    if s.prefix <= 31 {
      LastByteEven(s);
      assert |NextIP(n)| == 4 <==> n[0] != 0;
      SameBlock(Value(n), 32 - s.prefix);
    } else {
      assert Power2(32 - s.prefix) == 1;
    }
  }
}
