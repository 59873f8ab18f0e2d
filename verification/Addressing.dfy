/** IPv4 addresses as 32-bit numbers: shifts, OR, and moving a host id into another network. */
module Addressing {
  import opened Arithmetic

  const SPACE := 0x1_0000_0000

  type Addr = a: int | 0 <= a < 0x1_0000_0000

  type Prefix = p: int | 0 <= p <= 32

  function Pow2(k: nat): (r: nat)
    ensures r > 0
  {
    if k == 0 then 1 else 2 * Pow2(k - 1)
  }

  // ---------------------------------------------------------------- the operators

  /** IPAddr's `<<` keeps the low 32 bits. */
  function ShiftLeft(a: Addr, k: nat): Addr {
    a * Pow2(k) % SPACE
  }

  function ShiftRight(a: Addr, k: nat): Addr {
    Quotient(a, Pow2(k));
    a / Pow2(k)
  }

  /** Bitwise OR. */
  function Or(a: nat, b: nat): nat
    decreases a + b
  {
    if a == 0 && b == 0 then 0
    else 2 * Or(a / 2, b / 2) + (if a % 2 == 1 || b % 2 == 1 then 1 else 0)
  }

  // ---------------------------------------------------------------- arithmetic

  lemma {:induction false} Pow2Adds(j: nat, k: nat)
    ensures Pow2(j + k) == Pow2(j) * Pow2(k)
  {
    if j > 0 {
      Pow2Adds(j - 1, k);
    }
  }

  lemma Pow2Of32()
    ensures Pow2(32) == SPACE
  {
    assert Pow2(8) == 256;
    Pow2Adds(8, 8);
    Pow2Adds(16, 16);
  }

  lemma Pow2Splits(p: Prefix)
    ensures Pow2(32 - p) * Pow2(p) == SPACE
  {
    Pow2Adds(32 - p, p);
    Pow2Of32();
  }

  /** OR of numbers without a common bit is their sum: a multiple of 2^k and a number below it. */
  lemma {:induction false} OrIsSum(a: nat, b: nat, k: nat)
    requires b < Pow2(k)
    ensures Or(a * Pow2(k), b) == a * Pow2(k) + b
    decreases k, a
  {
    if k == 0 {
      assert a * 1 == a;
      OrZero(a);
    } else {
      var h := Pow2(k - 1);
      assert a * Pow2(k) == 2 * (a * h);
      var x := a * h;
      if 2 * x == 0 && b == 0 {
      } else {
        OrIsSum(a, b / 2, k - 1);
        assert (2 * x) / 2 == x && (2 * x) % 2 == 0;
      }
    }
  }

  lemma {:induction false} OrZero(a: nat)
    ensures Or(a, 0) == a
    decreases a
  {
    if a != 0 {
      OrZero(a / 2);
    }
  }

  // ---------------------------------------------------------------- networks

  /** The number of addresses in a network. */
  function Size(p: Prefix): nat {
    Pow2(32 - p)
  }

  /** The part of an address that names the host. */
  function HostId(a: Addr, p: Prefix): nat {
    a % Size(p)
  }

  /** The network's own address. */
  function NetworkOf(a: Addr, p: Prefix): nat {
    Quotient(a, Size(p));
    a - HostId(a, p)
  }

  predicate SameNetwork(a: Addr, b: Addr, p: Prefix) {
    a / Size(p) == b / Size(p)
  }

  /** (source << prefix >> prefix).to_i */
  function HostBits(a: Addr, p: Prefix): Addr {
    ShiftRight(ShiftLeft(a, p), p)
  }

  /** network >> (32 - prefix) << (32 - prefix); a new IPAddr of a CIDR is its network already. */
  function NetworkBits(a: Addr, p: Prefix): Addr {
    ShiftLeft(ShiftRight(a, 32 - p), 32 - p)
  }

  function GenerateIpAddress(source: Addr, network: Addr, p: Prefix): (r: Addr)
    ensures r == NetworkOf(network, p) + HostId(source, p)
  {
    BitsAreParts(source, p);
    BitsAreParts(network, p);
    Quotient(network, Size(p));
    OrIsSum(network / Size(p), HostId(source, p), 32 - p);
    InNetwork(network, p);
    Or(NetworkBits(network, p), HostBits(source, p))
  }

  /** The whole network fits the address space. */
  lemma InNetwork(a: Addr, p: Prefix)
    ensures NetworkOf(a, p) == a / Size(p) * Size(p)
    ensures 0 <= NetworkOf(a, p) <= SPACE - Size(p)
  {
    Pow2Splits(p);
    MultipleBelow(a, Size(p), Pow2(p));
  }

  lemma MultipleBelow(a: nat, n: nat, t: nat)
    requires n > 0 && a < n * t
    ensures a - a % n == a / n * n && 0 <= a / n * n <= n * t - n
  {
    Quotient(a, n);
    Distribute(n, t, a / n);
    MulSign(n, t - a / n);
  }

  /** Shifting the network bits out at the top and back leaves the host id. */
  lemma TopBitsGo(a: nat, n: nat, t: nat)
    requires n > 0 && t > 0
    ensures (n * t) > 0 && (a * t % (n * t)) / t == a % n
  {
    var q, h := a / n, a % n;
    Quotient(a, n);
    MulSign(n, t);
    ShiftedParts(n, t, q, h);
    assert a * t == (n * q + h) * t;
    DivisionUnique(a * t, n * t, q, h * t);
    DivisionUnique(h * t, t, h, 0);
  }

  lemma ShiftedParts(n: nat, t: nat, q: nat, h: nat)
    requires h < n && t > 0
    ensures (n * q + h) * t == (n * t) * q + h * t
    ensures 0 <= h * t < n * t
  {
  }

  /** The shifts pick out the host id and the network address. */
  lemma BitsAreParts(a: Addr, p: Prefix)
    ensures HostBits(a, p) == HostId(a, p)
    ensures NetworkBits(a, p) == NetworkOf(a, p)
  {
    Pow2Splits(p);
    InNetwork(a, p);
    TopBitsGo(a, Size(p), Pow2(p));
    DivisionUnique(NetworkOf(a, p), SPACE, 0, NetworkOf(a, p));
  }

  /** The new address lies in the target network and keeps the source's host id. */
  lemma GeneratedAddress(source: Addr, network: Addr, p: Prefix)
    ensures var r := GenerateIpAddress(source, network, p);
      SameNetwork(r, network, p) && HostId(r, p) == HostId(source, p)
  {
    var n := Size(p);
    Quotient(network, n);
    Quotient(source, n);
    DivisionUnique(GenerateIpAddress(source, network, p), n, network / n, source % n);
  }

  /** It is the only such address. */
  lemma AddressDetermined(a: Addr, b: Addr, p: Prefix)
    requires SameNetwork(a, b, p) && HostId(a, p) == HostId(b, p)
    ensures a == b
  {
  }

  /** Moving an address into another network of that prefix and back is the identity. */
  lemma MoveAndBack(source: Addr, network: Addr, p: Prefix)
    ensures GenerateIpAddress(GenerateIpAddress(source, network, p), source, p) == source
  {
    var moved := GenerateIpAddress(source, network, p);
    GeneratedAddress(source, network, p);
    GeneratedAddress(moved, source, p);
    AddressDetermined(GenerateIpAddress(moved, source, p), source, p);
  }

  /** Different hosts of one network stay different in the other. */
  lemma MoveIsInjective(a: Addr, b: Addr, network: Addr, p: Prefix)
    requires SameNetwork(a, b, p) && a != b
    ensures GenerateIpAddress(a, network, p) != GenerateIpAddress(b, network, p)
  {
    MoveAndBack(a, network, p);
    MoveAndBack(b, network, p);
    GeneratedAddress(a, network, p);
    GeneratedAddress(b, network, p);
    if GenerateIpAddress(a, network, p) == GenerateIpAddress(b, network, p) {
      AddressDetermined(a, b, p);
    }
  }
}
