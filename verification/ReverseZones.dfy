/** Reverse DNS zones for a CIDR (section 3.5 of RFC 1035). */
module ReverseZones {
  import opened Prelude
  import opened Arithmetic
  import opened Addressing

  datatype Error = PrefixTooLong | NoSuchAddress

  datatype Cidr = Cidr(addr: Addr, prefix: Prefix)

  datatype Zone = Zone(cidr: Cidr, name: string)

  const SUFFIX := "in-addr.arpa"

  // ---------------------------------------------------------------- names

  function Digit(n: nat): char
    requires n < 10
  {
    "0123456789"[n]
  }

  function Decimal(n: nat): (s: string)
    ensures |s| > 0 && '.' !in s
  {
    if n < 10 then [Digit(n)] else Decimal(n / 10) + [Digit(n % 10)]
  }

  function Join(labels: seq<string>): string
    requires labels != []
  {
    if |labels| == 1 then labels[0] else labels[0] + "." + Join(labels[1..])
  }

  function Octets(a: Addr): (r: seq<nat>)
    ensures |r| == 4
  {
    [a / 0x100_0000, a / 0x1_0000 % 256, a / 0x100 % 256, a % 256]
  }

  function Reverse<T>(s: seq<T>): (r: seq<T>)
    ensures |r| == |s| && forall i :: 0 <= i < |s| ==> r[i] == s[|s| - 1 - i]
  {
    if s == [] then [] else Reverse(s[1..]) + [s[0]]
  }

  function Labels(octets: seq<nat>): (r: seq<string>)
    ensures |r| == |octets| && forall i :: 0 <= i < |r| ==> r[i] == Decimal(octets[i])
  {
    seq(|octets|, i requires 0 <= i < |octets| => Decimal(octets[i]))
  }

  /** octets.reverse.drop(n).push('in-addr.arpa').join('.') */
  function NameWithout(a: Addr, n: nat): string
    requires n <= 4
  {
    Join(Labels(Reverse(Octets(a))[n..]) + [SUFFIX])
  }

  /** The name under which an address is looked up. */
  function ReverseName(a: Addr): string {
    NameWithout(a, 0)
  }

  ghost predicate Under(name: string, zone: string) {
    exists host :: name == host + "." + zone
  }

  /** Read back a decimal numeral. */
  function Value(s: string): nat {
    if s == [] then 0 else Value(s[..|s| - 1]) * 10 + DigitValue(s[|s| - 1])
  }

  function DigitValue(c: char): nat {
    if '0' <= c <= '9' then c as int - '0' as int else 0
  }

  lemma {:induction false} ValueOfDecimal(n: nat)
    ensures Value(Decimal(n)) == n
  {
    if n < 10 {
      assert Decimal(n)[..0] == [];
      assert Value([]) == 0;
    } else {
      ValueOfDecimal(n / 10);
      assert Decimal(n)[..|Decimal(n)| - 1] == Decimal(n / 10);
    }
  }

  lemma DecimalInjective(m: nat, n: nat)
    requires Decimal(m) == Decimal(n)
    ensures m == n
  {
    ValueOfDecimal(m);
    ValueOfDecimal(n);
  }

  lemma LastDot(x: string, s: string, y: string, t: string)
    requires x + "." + s == y + "." + t && '.' !in t
    ensures |x| <= |y|
  {
    var l, r := x + "." + s, y + "." + t;
    assert l[|x|] == '.';
    assert forall j :: |y| < j < |r| ==> r[j] == t[j - |y| - 1];
  }

  /** The part after the last dot is determined, and so is what stands before that dot. */
  lemma LastLabel(x: string, s: string, y: string, t: string)
    requires x + "." + s == y + "." + t && '.' !in s && '.' !in t
    ensures s == t && x == y
  {
    LastDot(x, s, y, t);
    LastDot(y, t, x, s);
    var l, r := x + "." + s, y + "." + t;
    assert l[..|x|] == x && r[..|y|] == y;
    assert l[|x| + 1..] == s && r[|y| + 1..] == t;
  }

  lemma CancelSuffix(x: string, y: string, s: string)
    requires x + s == y + s
    ensures x == y
  {
    assert (x + s)[..|x|] == x && (y + s)[..|y|] == y;
  }

  /** The four labels of an address, most specific first. */
  function Label(a: Addr, k: nat): string
    requires k < 4
  {
    Decimal(Octets(a)[3 - k])
  }

  predicate SameLeading(x: Addr, a: Addr, m: nat)
    requires m <= 4
  {
    forall k :: 0 <= k < m ==> Octets(x)[k] == Octets(a)[k]
  }

  /** The labels of a name, before the suffix. */
  function Spelled(a: Addr, n: nat): string
    requires n <= 3
    decreases 3 - n
  {
    if n == 3 then Label(a, 3) else Label(a, n) + "." + Spelled(a, n + 1)
  }

  lemma NameIsSpelled(a: Addr, n: nat)
    requires n <= 3
    ensures NameWithout(a, n) == Spelled(a, n) + ("." + SUFFIX)
    decreases 3 - n
  {
    var labels := Labels(Reverse(Octets(a))[n..]) + [SUFFIX];
    if n == 3 {
      assert Join(labels[1..]) == SUFFIX;
      assert NameWithout(a, n) == labels[0] + "." + SUFFIX;
    } else {
      NameIsSpelled(a, n + 1);
      assert labels[1..] == Labels(Reverse(Octets(a))[n + 1..]) + [SUFFIX];
      assert NameWithout(a, n) == labels[0] + "." + NameWithout(a, n + 1);
    }
  }

  lemma UnderSpelled(x: Addr, a: Addr, n: nat, host: string)
    requires 1 <= n <= 3
    ensures ReverseName(x) == host + "." + NameWithout(a, n) <==> Spelled(x, 0) == host + "." + Spelled(a, n)
  {
    NameIsSpelled(x, 0);
    NameIsSpelled(a, n);
    var end := "." + SUFFIX;
    assert host + "." + (Spelled(a, n) + end) == (host + "." + Spelled(a, n)) + end;
    if ReverseName(x) == host + "." + NameWithout(a, n) {
      CancelSuffix(Spelled(x, 0), host + "." + Spelled(a, n), end);
    }
  }

  /** An address is under the name made of another's leading octets exactly when it
      has those octets. */
  lemma UnderOctets(x: Addr, a: Addr, n: nat)
    requires 1 <= n <= 3
    ensures Under(ReverseName(x), NameWithout(a, n)) <==> SameLeading(x, a, 4 - n)
  {
    var full, zone := ReverseName(x), NameWithout(a, n);
    if host :| full == host + "." + zone {
      UnderSpelled(x, a, n, host);
      TailsMatch(x, a, n, host);
    }
    if SameLeading(x, a, 4 - n) {
      SameSpelling(x, a, n);
      HostThenRest(x, n);
      UnderSpelled(x, a, n, Host(x, n));
    }
  }

  /** What the first `n` labels spell. */
  function Host(x: Addr, n: nat): string
    requires 1 <= n <= 3
  {
    if n == 1 then Label(x, 0) else Host(x, n - 1) + "." + Label(x, n - 1)
  }

  lemma Reassociate(a: string, b: string, c: string)
    ensures a + "." + (b + "." + c) == (a + "." + b) + "." + c
  {
  }

  lemma {:induction false} HostThenRest(x: Addr, n: nat)
    requires 1 <= n <= 3
    ensures Spelled(x, 0) == Host(x, n) + "." + Spelled(x, n)
  {
    if n > 1 {
      HostThenRest(x, n - 1);
      Reassociate(Host(x, n - 1), Label(x, n - 1), Spelled(x, n));
    }
  }

  lemma {:induction false} SameSpelling(x: Addr, a: Addr, n: nat)
    requires n <= 3 && SameLeading(x, a, 4 - n)
    ensures Spelled(x, n) == Spelled(a, n)
    decreases 3 - n
  {
  }

  /** Two texts that end in a label agree on the last label and before it. */
  lemma LabelMatch(front: string, x: Addr, k: nat, front': string, a: Addr)
    requires k < 4 && front + "." + Label(x, k) == front' + "." + Label(a, k)
    ensures front == front' && Octets(x)[3 - k] == Octets(a)[3 - k]
  {
    LastLabel(front, Label(x, k), front', Label(a, k));
    DecimalInjective(Octets(x)[3 - k], Octets(a)[3 - k]);
  }

  /** The host part of another spelling, as far as label `k`. */
  function Leads(host: string, a: Addr, n: nat, k: nat): string
    requires 1 <= n <= k <= 3
    decreases k - n
  {
    if k == n then host else Leads(host, a, n, k - 1) + "." + Label(a, k - 1)
  }

  lemma {:induction false} LeadsThenRest(host: string, a: Addr, n: nat, k: nat)
    requires 1 <= n <= k <= 3
    ensures host + "." + Spelled(a, n) == Leads(host, a, n, k) + "." + Spelled(a, k)
    decreases k - n
  {
    if k > n {
      LeadsThenRest(host, a, n, k - 1);
      Reassociate(Leads(host, a, n, k - 1), Label(a, k - 1), Spelled(a, k));
    }
  }

  /** Going back from label `k`, equal texts agree label by label. */
  lemma {:induction false} LabelsMatch(x: Addr, host: string, a: Addr, n: nat, k: nat)
    requires 1 <= n <= k <= 3
    requires Host(x, k) + "." + Label(x, k) == Leads(host, a, n, k) + "." + Label(a, k)
    ensures forall j :: 3 - k <= j <= 3 - n ==> Octets(x)[j] == Octets(a)[j]
    decreases k
  {
    LabelMatch(Host(x, k), x, k, Leads(host, a, n, k), a);
    if k > n {
      LabelsMatch(x, host, a, n, k - 1);
    }
  }

  /** Equal spellings behind some host agree on all their labels. */
  lemma TailsMatch(x: Addr, a: Addr, n: nat, host: string)
    requires 1 <= n <= 3
    requires Spelled(x, 0) == host + "." + Spelled(a, n)
    ensures SameLeading(x, a, 4 - n)
  {
    HostThenRest(x, 3);
    LeadsThenRest(host, a, n, 3);
    LabelsMatch(x, host, a, n, 3);
  }

  // ---------------------------------------------------------------- zones

  predicate Contains(c: Cidr, x: Addr) {
    SameNetwork(x, c.addr, c.prefix)
  }

  /** The number of /24 networks in a CIDR. */
  function Networks(c: Cidr): nat
    requires c.prefix <= 24
  {
    Pow2(24 - c.prefix)
  }

  /** The zone of the i-th /24 from an address on. */
  function Chunk(c: Cidr, i: nat): Zone
    requires c.addr + 256 * i < SPACE
  {
    Zone(Cidr(c.addr + 256 * i, 24), NameWithout(c.addr + 256 * i, 1))
  }

  method CidrToReverseZones(c: Cidr) returns (r: Result<seq<Zone>, Error>)
    ensures r.Ok? ==> c.prefix <= 24 && ZonesOf(r.value, c)
    ensures r == Err(PrefixTooLong) <==> c.prefix > 24
    ensures r == Err(NoSuchAddress) <==>
            c.prefix <= 24 && c.prefix != 8 && c.prefix != 16 && c.addr + 256 * (Networks(c) - 1) >= SPACE
  {
    var zones := [];
    if c.prefix > 24 {
      return Err(PrefixTooLong);
    }
    if c.prefix == 8 {
      return Ok([Zone(c, NameWithout(c.addr, 3))]);
    }
    if c.prefix == 16 {
      return Ok([Zone(c, NameWithout(c.addr, 2))]);
    }
    var networks := Pow2(24 - c.prefix);
    for i := 0 to networks
      invariant |zones| == i
      invariant forall k :: 0 <= k < i ==> c.addr + 256 * k < SPACE && zones[k] == Chunk(c, k)
    {
      if c.addr + 256 * i >= SPACE {
        return Err(NoSuchAddress);
      }
      zones := zones + [Chunk(c, i)];
    }
    return Ok(zones);
  }

  /** What the loop returns. */
  ghost predicate IsChunks(zones: seq<Zone>, c: Cidr)
    requires c.prefix <= 24
  {
    && |zones| == Networks(c)
    && forall k :: 0 <= k < |zones| ==> c.addr + 256 * k < SPACE && zones[k] == Chunk(c, k)
  }

  /** What the method returns for a CIDR. */
  ghost predicate ZonesOf(zones: seq<Zone>, c: Cidr)
    requires c.prefix <= 24
  {
    if c.prefix == 8 then zones == [Zone(c, NameWithout(c.addr, 3))]
    else if c.prefix == 16 then zones == [Zone(c, NameWithout(c.addr, 2))]
    else IsChunks(zones, c)
  }

  lemma Sizes()
    ensures Size(8) == 0x100_0000 && Size(16) == 0x1_0000 && Size(24) == 0x100
  {
    assert Pow2(8) == 256;
    Pow2Adds(8, 8);
    Pow2Adds(16, 8);
  }

  lemma OctetsOfBlocks(a: Addr)
    ensures a / 0x1_0000 == 256 * Octets(a)[0] + Octets(a)[1]
    ensures a / 0x100 == 256 * (a / 0x1_0000) + Octets(a)[2]
  {
  }

  /** For the three prefixes of zones, lying in the network is agreeing on its octets. */
  lemma ContainsIsOctets(a: Addr, x: Addr, m: nat)
    requires 1 <= m <= 3
    ensures SameNetwork(x, a, 8 * m) <==> SameLeading(x, a, m)
  {
    Sizes();
    OctetsOfBlocks(a);
    OctetsOfBlocks(x);
    assert SameLeading(x, a, m) <==> forall k :: 0 <= k < m ==> Octets(x)[k] == Octets(a)[k];
    if m == 1 {
      assert SameLeading(x, a, 1) <==> Octets(x)[0] == Octets(a)[0];
    } else if m == 2 {
      assert SameLeading(x, a, 2) <==> Octets(x)[0] == Octets(a)[0] && Octets(x)[1] == Octets(a)[1];
    } else {
      assert SameLeading(x, a, 3) <==>
             Octets(x)[0] == Octets(a)[0] && Octets(x)[1] == Octets(a)[1] && Octets(x)[2] == Octets(a)[2];
    }
  }

  lemma ZoneNamed(zones: seq<Zone>, c: Cidr, z: Zone)
    requires c.prefix <= 24 && ZonesOf(zones, c) && z in zones
    ensures exists m :: 1 <= m <= 3 && z.cidr.prefix == 8 * m && z.name == NameWithout(z.cidr.addr, 4 - m)
  {
    if c.prefix == 8 {
      assert z.cidr.prefix == 8 * 1;
    } else if c.prefix == 16 {
      assert z.cidr.prefix == 8 * 2;
    } else {
      assert z.cidr.prefix == 8 * 3;
    }
  }

  /** Any address, inside or outside the CIDR, falls under a zone's name exactly when it
      lies in that zone. */
  lemma NameMatchesZone(zones: seq<Zone>, c: Cidr, z: Zone, x: Addr)
    requires c.prefix <= 24 && ZonesOf(zones, c) && z in zones
    ensures Under(ReverseName(x), z.name) <==> Contains(z.cidr, x)
  {
    ZoneNamed(zones, c, z);
    var m :| 1 <= m <= 3 && z.cidr.prefix == 8 * m && z.name == NameWithout(z.cidr.addr, 4 - m);
    ContainsIsOctets(z.cidr.addr, x, m);
    UnderOctets(x, z.cidr.addr, 4 - m);
  }

  lemma ChunkBlock(addr: nat, i: nat)
    ensures (addr + 256 * i) / 256 == addr / 256 + i
  {
  }

  lemma InChunk(c: Cidr, i: nat, x: Addr)
    requires c.addr + 256 * i < SPACE
    ensures Contains(Chunk(c, i).cidr, x) <==> x / 256 == c.addr / 256 + i
  {
  }

  /** No address lies in two zones, and no two zones share a name. */
  lemma ZonesDisjoint(zones: seq<Zone>, c: Cidr, i: nat, j: nat)
    requires c.prefix <= 24 && ZonesOf(zones, c) && i < j < |zones|
    ensures zones[i].name != zones[j].name
    ensures forall x :: !(Contains(zones[i].cidr, x) && Contains(zones[j].cidr, x))
  {
    forall x ensures !(Contains(zones[i].cidr, x) && Contains(zones[j].cidr, x)) {
      InChunk(c, i, x);
      InChunk(c, j, x);
    }
    var x := zones[i].cidr.addr;
    NameMatchesZone(zones, c, zones[i], x);
    NameMatchesZone(zones, c, zones[j], x);
  }

  ghost predicate InSomeZone(zones: seq<Zone>, x: Addr) {
    exists i :: 0 <= i < |zones| && Contains(zones[i].cidr, x)
  }

  lemma SizeInChunks(c: Cidr)
    requires c.prefix <= 24
    ensures Size(c.prefix) == 256 * Networks(c)
  {
    Sizes();
    Pow2Adds(24 - c.prefix, 8);
  }

  /** Membership of the CIDR in terms of /24 blocks. */
  lemma InCidr(c: Cidr, x: Addr)
    requires c.prefix <= 24
    ensures Contains(c, x) <==> x / 256 / Networks(c) == c.addr / 256 / Networks(c)
  {
    SizeInChunks(c);
    SplitRemainder(x, Networks(c));
    SplitRemainder(c.addr, Networks(c));
  }

  lemma BlockRange(b: nat, d: nat, n: nat)
    requires n > 0 && b % n == 0
    ensures d / n == b / n <==> b <= d < b + n
  {
    Quotient(b, n);
    Quotient(d, n);
    if b <= d < b + n { DivisionUnique(d, n, b / n, d - b); }
  }

  lemma BlockOverrun(b: nat, n: nat)
    requires n > 0 && b % n != 0
    ensures (b + n - 1) / n != b / n
  {
  }

  lemma AlignedChunksCover(zones: seq<Zone>, c: Cidr, x: Addr)
    requires c.prefix <= 24 && IsChunks(zones, c) && c.addr / 256 % Networks(c) == 0
    ensures InSomeZone(zones, x) <==> Contains(c, x)
  {
    ChunkRange(zones, c, x);
    InCidr(c, x);
    BlockRange(c.addr / 256, x / 256, Networks(c));
  }

  lemma StrayBlock(c: Cidr, x: Addr, n: nat)
    requires c.prefix <= 24 && n == Networks(c) && c.addr / 256 % n != 0 && x / 256 == c.addr / 256 + n - 1
    ensures !Contains(c, x)
  {
    InCidr(c, x);
    BlockOverrun(c.addr / 256, n);
  }

  /** Otherwise the last zone lies outside the CIDR. */
  lemma UnalignedChunksStray(zones: seq<Zone>, c: Cidr) returns (x: Addr)
    requires c.prefix <= 24 && IsChunks(zones, c) && c.addr / 256 % Networks(c) != 0
    ensures InSomeZone(zones, x) && !Contains(c, x)
  {
    var n := Networks(c);
    var z := zones[n - 1];
    assert z == Chunk(c, n - 1);
    x := z.cidr.addr;
    assert Contains(zones[n - 1].cidr, x) by {
      InChunk(c, n - 1, x);
    }
    assert x / 256 == c.addr / 256 + n - 1 by {
      ChunkBlock(c.addr, n - 1);
    }
    StrayBlock(c, x, n);
  }

  /** The zones hold exactly the CIDR's addresses if and only if its address lies in the
      CIDR's first /24; the /8 and /16 shortcuts always do. */
  lemma ZonesCoverExactly(zones: seq<Zone>, c: Cidr)
    requires c.prefix <= 24 && ZonesOf(zones, c)
    ensures (forall x :: InSomeZone(zones, x) <==> Contains(c, x)) <==>
            c.prefix == 8 || c.prefix == 16 || HostId(c.addr, c.prefix) < 256
  {
    if c.prefix == 8 || c.prefix == 16 {
      forall x ensures InSomeZone(zones, x) <==> Contains(c, x) {
        assert Contains(zones[0].cidr, x) <==> Contains(c, x);
      }
    } else {
      FirstChunk(c);
      if c.addr / 256 % Networks(c) == 0 {
        forall x ensures InSomeZone(zones, x) <==> Contains(c, x) {
          AlignedChunksCover(zones, c, x);
        }
      } else {
        var x := UnalignedChunksStray(zones, c);
      }
    }
  }

  /** The zones of 10.0.1.0/23 hold 10.0.2.0, which is not in it, and miss 10.0.0.0. */
  lemma UnalignedZones(zones: seq<Zone>)
    requires ZonesOf(zones, Cidr(0x0A00_0100, 23))
    ensures InSomeZone(zones, 0x0A00_0200) && !Contains(Cidr(0x0A00_0100, 23), 0x0A00_0200)
    ensures !InSomeZone(zones, 0x0A00_0000) && Contains(Cidr(0x0A00_0100, 23), 0x0A00_0000)
  {
    var c := Cidr(0x0A00_0100, 23);
    assert Networks(c) == 2;
    ChunkRange(zones, c, 0x0A00_0200);
    ChunkRange(zones, c, 0x0A00_0000);
    InCidr(c, 0x0A00_0200);
    InCidr(c, 0x0A00_0000);
  }

  lemma SplitRemainder(x: nat, n: nat)
    requires n > 0
    ensures x % (256 * n) == 256 * (x / 256 % n) + x % 256
    ensures x / (256 * n) == x / 256 / n
  {
    var b := x / 256;
    Quotient(b, n);
    Gather(n, b / n, b % n, x % 256);
    DivisionUnique(x, 256 * n, b / n, 256 * (b % n) + x % 256);
  }

  lemma Gather(n: nat, q: nat, r: nat, d: nat)
    ensures 256 * (n * q + r) + d == (256 * n) * q + (256 * r + d)
  {
  }

  lemma FirstChunk(c: Cidr)
    requires c.prefix <= 24
    ensures HostId(c.addr, c.prefix) < 256 <==> c.addr / 256 % Networks(c) == 0
  {
    SizeInChunks(c);
    SplitRemainder(c.addr, Networks(c));
  }

  lemma ChunkRange(zones: seq<Zone>, c: Cidr, x: Addr)
    requires c.prefix <= 24 && IsChunks(zones, c)
    ensures InSomeZone(zones, x) <==> c.addr / 256 <= x / 256 < c.addr / 256 + Networks(c)
  {
    forall i | 0 <= i < |zones| ensures Contains(zones[i].cidr, x) <==> x / 256 == c.addr / 256 + i {
      InChunk(c, i, x);
    }
    if c.addr / 256 <= x / 256 < c.addr / 256 + Networks(c) {
      assert Contains(zones[x / 256 - c.addr / 256].cidr, x);
    }
  }

  /** A CIDR written with its network address, of prefix 24 at most, always has its zones. */
  lemma AlignedNeverFails(c: Cidr)
    requires c.prefix <= 24 && HostId(c.addr, c.prefix) < 256
    ensures c.addr + 256 * (Networks(c) - 1) < SPACE
  {
    SizeInChunks(c);
    InNetwork(c.addr, c.prefix);
    Quotient(c.addr, Size(c.prefix));
  }
}
