/** Which peer an outbound packet goes to: the first AllowedIPs block that covers its destination. */
module Routing {
  import opened Words
  import opened Arithmetic

  /** `s_addr` as it lies in memory: four bytes in network order. */
  type Address = a: seq<Byte> | |a| == 4 witness [0, 0, 0, 0]

  function Pow2(k: nat): (r: nat)
    ensures r > 0
  {
    if k == 0 then 1 else 2 * Pow2(k - 1)
  }

  /** `x & y` on unsigned integers. */
  function And(x: nat, y: nat): nat {
    if x == 0 || y == 0 then 0 else (if x % 2 == y % 2 == 1 then 1 else 0) + 2 * And(x / 2, y / 2)
  }

  /** `&` on 32-bit words acts byte by byte in memory, whatever the host's byte order. */
  function AndWord(a: Address, b: Address): seq<nat> {
    [And(a[0], b[0]), And(a[1], b[1]), And(a[2], b[2]), And(a[3], b[3])]
  }

  /** htonl, and the number a network-order word stands for (ntohl). */
  function ToNetwork(x: nat): Address
    requires x < Pow2(32)
  {
    [x / 0x1000000 % 256, x / 0x10000 % 256, x / 0x100 % 256, x % 256]
  }

  function Value(a: seq<nat>): nat
    requires |a| == 4
  {
    256 * (256 * (256 * a[0] + a[1]) + a[2]) + a[3]
  }

  /** `~0U << (32 - prefix)` in 32 bits; prefix 0 apart, since a shift by 32 is undefined. */
  function HostMask(prefix: nat): nat
    requires prefix <= 32
  {
    if prefix == 0 then 0 else (Pow2(32) - 1) * Pow2(32 - prefix) % Pow2(32)
  }

  /** routing_matches. */
  predicate Matches(addr: Address, network: Address, prefix: nat)
    requires prefix <= 32
  {
    var mask := ToNetwork(HostMask(prefix));
    AndWord(addr, mask) == AndWord(network, mask)
  }

  /** The addresses that share their first `prefix` bits with `network`: the aligned block of
      2^(32 - prefix) numbers around it, section 3.1 of RFC 4632. */
  predicate InBlock(addr: Address, network: Address, prefix: nat)
    requires prefix <= 32
  {
    Value(addr) / Pow2(32 - prefix) == Value(network) / Pow2(32 - prefix)
  }

  // ---------------------------------------------------------------- masks and blocks

  lemma {:induction false} PowAdd(j: nat, k: nat)
    ensures Pow2(j + k) == Pow2(j) * Pow2(k)
  {
    if j == 0 {
    } else {
      PowAdd(j - 1, k);
    }
  }

  /** `x << k`. */
  function Shifted(x: nat, k: nat): nat {
    if k == 0 then x else 2 * Shifted(x, k - 1)
  }

  /** `&` works on the high and the low k bits separately. */
  lemma {:induction false} AndSplit(k: nat, x: nat, b: nat, y: nat, c: nat)
    requires b < Pow2(k) && c < Pow2(k)
    ensures And(Shifted(x, k) + b, Shifted(y, k) + c) == Shifted(And(x, y), k) + And(b, c)
  {
    if k == 0 {
    } else {
      assert b / 2 < Pow2(k - 1) && c / 2 < Pow2(k - 1);
      AndSplit(k - 1, x, b / 2, y, c / 2);
      AndDouble(Shifted(x, k - 1), b, Shifted(y, k - 1), c);
    }
  }

  lemma ShiftedByte(x: nat)
    ensures Shifted(x, 8) == 256 * x
  {
    assert Shifted(x, 1) == 2 * x;
    assert Shifted(x, 2) == 4 * x;
    assert Shifted(x, 3) == 8 * x;
    assert Shifted(x, 4) == 16 * x;
    assert Shifted(x, 5) == 32 * x;
    assert Shifted(x, 6) == 64 * x;
    assert Shifted(x, 7) == 128 * x;
  }

  /** One bit of the recursion, on both sides of AndSplit. */
  lemma AndDouble(u: nat, b: nat, v: nat, c: nat)
    ensures And(2 * u + b, 2 * v + c) - 2 * And(u + b / 2, v + c / 2) == And(b, c) - 2 * And(b / 2, c / 2)
  {
    assert (2 * u + b) / 2 == u + b / 2 && (2 * v + c) / 2 == v + c / 2;
  }

  lemma {:induction false} AndOnes(q: nat, m: nat)
    requires q < Pow2(m)
    ensures And(q, Pow2(m) - 1) == q
  {
    if m == 0 {
    } else {
      var h := Pow2(m - 1);
      assert (2 * h - 1) / 2 == h - 1 && (2 * h - 1) % 2 == 1;
      AndOnes(q / 2, m - 1);
    }
  }

  lemma PowMonotone(k: nat, n: nat)
    requires k <= n
    ensures Pow2(k) <= Pow2(n)
  {
  }

  /** Masking with the bits from k up to n drops the remainder. */
  lemma {:induction false} AndHighMask(x: nat, mask: nat, n: nat, k: nat)
    requires k <= n && x < Pow2(n) && mask == Pow2(n) - Pow2(k)
    ensures And(x, mask) == x - x % Pow2(k)
  {
    if k == 0 {
      AndOnes(x, n);
    } else {
      PowMonotone(k, n);
      AndHighMask(x / 2, mask / 2, n - 1, k - 1);
      ModDouble(x, Pow2(k - 1));
    }
  }

  lemma ModDouble(x: nat, h: nat)
    requires h > 0
    ensures x % (2 * h) == 2 * (x / 2 % h) + x % 2
  {
    var q, s := x / 2 / h, x / 2 % h;
    assert x / 2 == h * q + s;
    assert 2 * h * q == 2 * (h * q);
    QuotientUnique(x, 2 * h, q, 2 * s + x % 2);
  }

  lemma AndByte(x: nat, b: Byte, y: nat, c: Byte)
    ensures And(256 * x + b, 256 * y + c) == 256 * And(x, y) + And(b, c)
  {
    assert Pow2(4) == 16;
    assert Pow2(8) == 256;
    ShiftedByte(x);
    ShiftedByte(y);
    ShiftedByte(And(x, y));
    AndSplit(8, x, b, y, c);
  }

  lemma {:induction false} AndBelow(x: nat, y: nat)
    ensures And(x, y) <= x
  {
    if x == 0 || y == 0 {
    } else {
      AndBelow(x / 2, y / 2);
    }
  }

  lemma AndTwoBytes(x: nat, b: Byte, c: Byte, y: nat, d: Byte, e: Byte, u: nat, v: nat)
    requires u == 256 * x + b && v == 256 * y + d
    ensures And(256 * u + c, 256 * v + e) == 256 * (256 * And(x, y) + And(b, d)) + And(c, e)
  {
    AndByte(x, b, y, d);
    AndByte(u, c, v, e);
  }

  lemma AndWordValue(a: Address, b: Address)
    ensures Value(AndWord(a, b)) == And(Value(a), Value(b))
  {
    var a0: nat, b0: nat := a[0], b[0];
    AndByte(a0, a[1], b0, b[1]);
    var x, y := 256 * a0 + a[1], 256 * b0 + b[1];
    AndTwoBytes(x, a[2], a[3], y, b[2], b[3], 256 * x + a[2], 256 * y + b[2]);
  }

  lemma LastByte(x: nat, b: nat, y: nat, c: nat)
    requires 256 * x + b == 256 * y + c && b < 256 && c < 256
    ensures x == y && b == c
  {
  }

  lemma ValueInjective(a: seq<nat>, b: seq<nat>)
    requires |a| == |b| == 4 && Value(a) == Value(b)
    requires forall k | 0 <= k < 4 :: a[k] < 256 && b[k] < 256
    ensures a == b
  {
    LastByte(256 * (256 * a[0] + a[1]) + a[2], a[3], 256 * (256 * b[0] + b[1]) + b[2], b[3]);
    LastByte(256 * a[0] + a[1], a[2], 256 * b[0] + b[1], b[2]);
    LastByte(a[0], a[1], b[0], b[1]);
  }

  lemma PowThirtyTwo()
    ensures Pow2(32) == 0x1_0000_0000
  {
    var k := 4;
    while k < 32
      invariant k == 4 || k == 8 || k == 16 || k == 32
      invariant Pow2(k) == if k == 4 then 0x10 else if k == 8 then 0x100 else if k == 16 then 0x10000 else 0x1_0000_0000
    {
      PowAdd(k, k);
      k := k + k;
    }
  }

  lemma ToNetworkValue(x: nat)
    requires x < Pow2(32)
    ensures Value(ToNetwork(x)) == x
  {
    PowThirtyTwo();
    DivDiv(x, 256, 256);
    DivDiv(x, 0x10000, 256);
    var y := x / 256;
    var z := y / 256;
    Euclid(x, 256);
    Euclid(y, 256);
    Euclid(z, 256);
  }

  lemma ShiftedOnes(n: nat, k: nat)
    requires 0 < k <= n
    ensures (n - 1) * k % n == n - k || k == n
  {
    if k < n {
      assert (n - 1) * k == n * (k - 1) + (n - k);
      QuotientUnique((n - 1) * k, n, k - 1, n - k);
    }
  }

  lemma HostMaskIs(prefix: nat)
    requires prefix <= 32
    ensures HostMask(prefix) == Pow2(32) - Pow2(32 - prefix)
  {
    if prefix > 0 {
      PowMonotone(32 - prefix, 31);
      ShiftedOnes(Pow2(32), Pow2(32 - prefix));
    }
  }

  lemma MultipleEqual(x: nat, y: nat, p: nat)
    requires p > 0
    ensures x - x % p == y - y % p <==> x / p == y / p
  {
    assert x - x % p == p * (x / p) && y - y % p == p * (y / p);
    if x / p < y / p {
      MulGap(p, x / p, y / p);
    } else if y / p < x / p {
      MulGap(p, y / p, x / p);
    }
  }

  /** The mask as a word in memory, and as a number. */
  lemma MaskWord(prefix: nat, mask: Address)
    requires prefix <= 32 && HostMask(prefix) < Pow2(32) && mask == ToNetwork(HostMask(prefix))
    ensures Value(mask) == Pow2(32) - Pow2(32 - prefix)
  {
    HostMaskIs(prefix);
    ToNetworkValue(HostMask(prefix));
  }

  lemma ValueBelow(a: Address)
    ensures Value(a) < Pow2(32)
  {
    PowThirtyTwo();
  }

  /** Masking a word in memory drops the last 32 - prefix bits of the number it stands for. */
  lemma MaskedValue(a: Address, mask: Address, prefix: nat)
    requires prefix <= 32 && Value(mask) == Pow2(32) - Pow2(32 - prefix)
    ensures Value(AndWord(a, mask)) == Value(a) - Value(a) % Pow2(32 - prefix)
  {
    ValueBelow(a);
    AndWordValue(a, mask);
    AndHighMask(Value(a), Value(mask), 32, 32 - prefix);
  }

  lemma MaskedBytes(a: Address, mask: Address)
    ensures forall k | 0 <= k < 4 :: AndWord(a, mask)[k] < 256
  {
    forall k | 0 <= k < 4 ensures AndWord(a, mask)[k] < 256 {
      AndBelow(a[k], mask[k]);
    }
  }

  lemma MaskedEqual(a: Address, b: Address, mask: Address)
    ensures AndWord(a, mask) == AndWord(b, mask) <==> Value(AndWord(a, mask)) == Value(AndWord(b, mask))
  {
    MaskedBytes(a, mask);
    MaskedBytes(b, mask);
    if Value(AndWord(a, mask)) == Value(AndWord(b, mask)) {
      ValueInjective(AndWord(a, mask), AndWord(b, mask));
    }
  }

  /** The masked comparison of network-order words is membership in the CIDR block. */
  lemma MatchesIffInBlock(addr: Address, network: Address, prefix: nat)
    requires prefix <= 32
    ensures Matches(addr, network, prefix) <==> InBlock(addr, network, prefix)
  {
    var mask := ToNetwork(HostMask(prefix));
    MaskWord(prefix, mask);
    MaskedValue(addr, mask, prefix);
    MaskedValue(network, mask, prefix);
    MaskedEqual(addr, network, mask);
    MultipleEqual(Value(addr), Value(network), Pow2(32 - prefix));
  }

  // ---------------------------------------------------------------- the routing table

  /** routing_parse_ipv4_dest: bytes 16 to 19 of an IPv4 header. */
  function ParseDest(packet: seq<Byte>): (dest: Option<Address>)
    ensures dest.Some? <==> |packet| >= 20 && packet[0] / 16 == 4
    ensures dest.Some? ==> forall k | 0 <= k < 4 :: dest.value[k] == packet[16 + k]
  {
    if |packet| < 20 || packet[0] / 16 != 4 then None else Some(packet[16..20])
  }

  /** One peer's AllowedIPs. */
  datatype Route = Route(network: Address, prefix: nat)

  type Table = t: seq<Route> | forall r | r in t :: r.prefix <= 32 witness []

  predicate Covers(r: Route, dest: Address)
    requires r.prefix <= 32
  {
    InBlock(dest, r.network, r.prefix)
  }

  predicate IsFirstMatch(t: Table, dest: Address, k: nat) {
    k < |t| && Covers(t[k], dest) && forall j | 0 <= j < k :: !Covers(t[j], dest)
  }

  /** The first block, from `from` on, that covers `dest`. */
  function Lookup(t: Table, dest: Address, from: nat): (index: Option<nat>)
    requires from <= |t| && forall j | 0 <= j < from :: !Covers(t[j], dest)
    ensures index.Some? ==> IsFirstMatch(t, dest, index.value)
    ensures index.None? ==> forall r | r in t :: !Covers(r, dest)
    decreases |t| - from
  {
    if from == |t| then None
    else if Covers(t[from], dest) then Some(from)
    else Lookup(t, dest, from + 1)
  }

  /** The peer an outbound packet is for, if it is IPv4 and some block covers its destination. */
  function RoutePacket(t: Table, packet: seq<Byte>): (index: Option<nat>)
    ensures index.Some? ==> ParseDest(packet).Some? && IsFirstMatch(t, ParseDest(packet).value, index.value)
    ensures index.None? ==> ParseDest(packet).None? || forall r | r in t :: !Covers(r, ParseDest(packet).value)
  {
    match ParseDest(packet)
    case None => None
    case Some(dest) => Lookup(t, dest, 0)
  }

  /** routing_matches on one entry. */
  method MatchRoute(r: Route, dest: Address) returns (hit: bool)
    requires r.prefix <= 32
    ensures hit == Covers(r, dest)
  {
    MatchesIffInBlock(dest, r.network, r.prefix);
    return Matches(dest, r.network, r.prefix);
  }

  /** routing_find_peer_for_dest. */
  method FindPeerForDest(t: Table, dest: Address) returns (index: int)
    ensures index == match Lookup(t, dest, 0) case None => -1 case Some(k) => k
  {
    for k := 0 to |t|
      invariant forall j | 0 <= j < k :: !Covers(t[j], dest)
      invariant Lookup(t, dest, 0) == Lookup(t, dest, k)
    {
      var hit := MatchRoute(t[k], dest);
      if hit {
        return k;
      }
    }
    return -1;
  }

  lemma CoarserBlock(x: Address, y: Address, p: nat, q: nat)
    requires p <= q <= 32 && InBlock(x, y, q)
    ensures InBlock(x, y, p)
  {
    PowAdd(32 - q, q - p);
    DivCoarser(Value(x), Value(y), Pow2(32 - q), Pow2(q - p));
  }

  /** One block contains the other. */
  predicate Nested(r: Route, s: Route)
    requires r.prefix <= 32 && s.prefix <= 32
  {
    if r.prefix <= s.prefix then Covers(r, s.network) else Covers(s, r.network)
  }

  /** Two blocks overlap only by nesting: the wider one then covers all of the narrower one. */
  lemma NestedOrDisjoint(r: Route, s: Route, dest: Address)
    requires r.prefix <= s.prefix <= 32
    ensures Nested(r, s) && Covers(s, dest) ==> Covers(r, dest)
    ensures Covers(r, dest) && Covers(s, dest) ==> Nested(r, s)
  {
    if Covers(s, dest) {
      CoarserBlock(dest, s.network, r.prefix, s.prefix);
    }
  }

  /** The order of the [Peer] sections matters exactly when two AllowedIPs blocks nest. */
  lemma FirstMatchIsOnlyMatch(t: Table)
    ensures (forall dest: Address, j, k | 0 <= j < k < |t| :: !(Covers(t[j], dest) && Covers(t[k], dest)))
       <==> (forall j, k | 0 <= j < k < |t| :: !Nested(t[j], t[k]))
  {
    forall dest: Address, j, k | 0 <= j < k < |t| && Covers(t[j], dest) && Covers(t[k], dest)
      ensures Nested(t[j], t[k])
    {
      if t[j].prefix <= t[k].prefix {
        NestedOrDisjoint(t[j], t[k], dest);
      } else {
        NestedOrDisjoint(t[k], t[j], dest);
      }
    }
    forall j, k | 0 <= j < k < |t| && Nested(t[j], t[k])
      ensures exists dest: Address :: Covers(t[j], dest) && Covers(t[k], dest)
    {
      var inner := if t[j].prefix <= t[k].prefix then t[k] else t[j];
      assert Covers(t[j], inner.network) && Covers(t[k], inner.network);
    }
  }

  /** With 10.0.0.0/8 listed before 10.1.0.0/16, both cover 10.1.2.3, and the first one gets it. */
  lemma NestedBlocksOverlap()
    ensures var t: Table := [Route([10, 0, 0, 0], 8), Route([10, 1, 0, 0], 16)];
            Covers(t[0], [10, 1, 2, 3]) && Covers(t[1], [10, 1, 2, 3]) && Lookup(t, [10, 1, 2, 3], 0) == Some(0)
  {
    assert Pow2(4) == 16;
    assert Pow2(8) == 256;
    PowAdd(8, 8);
    PowAdd(16, 8);
  }
}
