/**
 * Enumeration of the hosts of an IPv4 CIDR block (src/chord/util.go:101-113),
 * in the sense of RFC 4632, section 3.1.
 *
 * Parsing of the "a.b.c.d/n" text is abstracted: `Hosts` receives what
 * `net.ParseCIDR` produced, or `None` when it failed. The mask is its prefix
 * length and addresses are 4-byte sequences. `Hosts` starts at the network
 * address, appends addresses while the block contains them, stepping with
 * `inc`, and then slices off the first (network) and last (broadcast) ones.
 */
module Cidr {
  import opened Wrappers
  import opened Arithmetic
  import opened Bytes

  type Address = s: seq<byte> | |s| == 4 witness [0, 0, 0, 0]

  /** The result of parsing "a.b.c.d/n": the address written and the prefix length n. */
  datatype Block = Block(ip: Address, prefix: nat)

  datatype HostsError =
    | ParseError        // `net.ParseCIDR` returned an error
    | SliceBoundsPanic  // `ips[1 : len(ips)-1]` with fewer than two addresses

  /** Number of IPv4 addresses, 2^32. */
  const AddressCount: nat := 0x1_0000_0000

  function Pow2(n: nat): (p: nat)
    ensures p >= 1
  {
    if n == 0 then 1 else 2 * Pow2(n - 1)
  }

  predicate WellFormed(c: Block) {
    c.prefix <= 32
  }

  /** Number of addresses in the block: 2^(32 - prefix). */
  function Size(c: Block): (n: nat)
    requires WellFormed(c)
    ensures 1 <= n <= AddressCount
    ensures c.prefix >= 1 ==> 2 * n <= AddressCount
  {
    SizeBounds(c.prefix);
    Pow2(32 - c.prefix)
  }

  /** Only a /32 block has fewer than two addresses. */
  lemma SizeAtLeastTwo(c: Block)
    requires WellFormed(c)
    ensures Size(c) < 2 <==> c.prefix == 32
  {
    if c.prefix < 32 {
      assert Pow2(32 - c.prefix) == 2 * Pow2(31 - c.prefix);
    }
  }

  /** The address with numeric value `v` (mod 2^32). */
  function AddressOf(v: nat): (a: Address) {
    ToBytes(v, 4)
  }

  /** Numeric value of the network address `ip.Mask(ipnet.Mask)`: the
      written address with its low 32 - prefix bits cleared. */
  function Network(c: Block): (n: nat)
    requires WellFormed(c)
    ensures n + Size(c) <= AddressCount
    ensures n % Size(c) == 0 && n <= BigEndian(c.ip) < n + Size(c)
  {
    ModAtMost(BigEndian(c.ip), Size(c));
    NetworkBounds(c);
    BigEndian(c.ip) - BigEndian(c.ip) % Size(c)
  }

  /** `ipnet.Contains(addr)`: the first `prefix` bits of `addr` are those of
      the block, that is, `addr` lies in the range of `Size(c)` addresses
      starting at the network address. */
  function Contains(c: Block, addr: seq<byte>): (r: bool)
    requires WellFormed(c)
    ensures r <==> |addr| == 4 && Network(c) <= BigEndian(addr) < Network(c) + Size(c)
  {
    SameBlockIsRange(c, BigEndian(addr));
    |addr| == 4 && BigEndian(addr) / Size(c) == BigEndian(c.ip) / Size(c)
  }

  /** Every address of the block in increasing order, network address first
      and broadcast address last: what the loop of `Hosts` collects. */
  function Enumerate(c: Block): (s: seq<Address>)
    requires WellFormed(c)
    ensures |s| == Size(c)
  {
    seq<Address>(Size(c), i requires 0 <= i < Size(c) => AddressOf(Network(c) + i))
  }

  /** `Hosts`: the addresses of the block without its network and broadcast
      addresses. A /0 block is not accepted: there `inc` wraps from
      255.255.255.255 to 0.0.0.0, which the block still contains, and the Go
      loop never ends. */
  method Hosts(cidr: Option<Block>) returns (r: Result<seq<Address>, HostsError>)
    requires cidr.Some? ==> 1 <= cidr.value.prefix <= 32
    ensures cidr.None? ==> r == Failure(ParseError)
    ensures cidr.Some? && cidr.value.prefix == 32 ==> r == Failure(SliceBoundsPanic)
    ensures cidr.Some? && cidr.value.prefix < 32 ==>
      r == Success(Enumerate(cidr.value)[1 .. Size(cidr.value) - 1])
  {
    if cidr.None? {
      return Failure(ParseError);
    }
    var c := cidr.value;
    ghost var h := Size(c);
    ghost var n := Network(c);
    var start := AddressOf(Network(c));
    var ip := new byte[4];
    ip[0], ip[1], ip[2], ip[3] := start[0], start[1], start[2], start[3];
    assert ip[..] == start;
    InBlock(c, 0);
    var ips: seq<Address> := [];
    while Contains(c, ip[..])
      invariant ip.Length == 4
      invariant |ips| <= h
      invariant ips == Enumerate(c)[..|ips|]
      invariant |ips| < h ==> ip[..] == AddressOf(n + |ips|) && Contains(c, ip[..])
      invariant |ips| == h ==> !Contains(c, ip[..])
      decreases h - |ips|
    {
      ghost var before := ip[..];
      ips := ips + [ip[..]];
      Inc(ip);
      CollectStep(c, ips, before, ip[..]);
    }
    assert |ips| == h;
    assert ips == Enumerate(c);
    SizeAtLeastTwo(c);
    if |ips| < 2 {
      return Failure(SliceBoundsPanic);
    }
    return Success(ips[1 .. |ips| - 1]);
  }

  // ---------------------------------------------------------------------
  // The enumeration is the block

  /** The i-th enumerated address is the network address plus i, and the
      block contains it. */
  lemma EnumerateAt(c: Block, i: nat)
    requires WellFormed(c) && i < Size(c)
    ensures Enumerate(c)[i] == AddressOf(Network(c) + i)
    ensures BigEndian(Enumerate(c)[i]) == Network(c) + i
    ensures Contains(c, Enumerate(c)[i])
  {
    InBlock(c, i);
  }

  /** Every address the block contains is enumerated. */
  lemma EnumerateComplete(c: Block, a: Address)
    requires WellFormed(c) && Contains(c, a)
    ensures a in Enumerate(c)
  {
    var h, n, v := Size(c), Network(c), BigEndian(a);
    BlockQuotient(c);
    SameQuotient(n, h, v);
    ToBytesOfBigEndian(a);
    EnumerateAt(c, v - n);
  }

  /** The enumeration lists exactly the addresses the block contains, each
      one more than the one before, from the network address to the
      broadcast address. */
  lemma EnumerateIsBlock(c: Block, a: Address)
    requires WellFormed(c)
    ensures Contains(c, a) <==> a in Enumerate(c)
    ensures BigEndian(Enumerate(c)[0]) == Network(c)
    ensures BigEndian(Enumerate(c)[Size(c) - 1]) == Network(c) + Size(c) - 1
    ensures forall i :: 0 < i < Size(c) ==>
      BigEndian(Enumerate(c)[i]) == BigEndian(Enumerate(c)[i - 1]) + 1
  {
    var e := Enumerate(c);
    forall i | 0 <= i < Size(c)
      ensures BigEndian(e[i]) == Network(c) + i && Contains(c, e[i])
    {
      EnumerateAt(c, i);
    }
    if Contains(c, a) {
      EnumerateComplete(c, a);
    }
  }

  /** What `Hosts` returns, stated over the block: for a block with more than
      one address, exactly the contained addresses other than the network
      and broadcast addresses, 2^(32 - prefix) - 2 of them. */
  lemma HostsAreInnerAddresses(c: Block, a: Address)
    requires 1 <= c.prefix < 32
    ensures |Enumerate(c)[1 .. Size(c) - 1]| == Size(c) - 2
    ensures a in Enumerate(c)[1 .. Size(c) - 1] <==>
      Contains(c, a) && BigEndian(a) != Network(c) && BigEndian(a) != Network(c) + Size(c) - 1
  {
    var e, h, n := Enumerate(c), Size(c), Network(c);
    SizeAtLeastTwo(c);
    var inner := e[1 .. h - 1];
    if a in inner {
      var j :| 0 <= j < |inner| && inner[j] == a;
      EnumerateAt(c, j + 1);
    }
    if Contains(c, a) && BigEndian(a) != n && BigEndian(a) != n + h - 1 {
      EnumerateComplete(c, a);
      var i :| 0 <= i < h && e[i] == a;
      EnumerateAt(c, i);
      assert inner[i - 1] == a;
    }
  }

  // ---------------------------------------------------------------------
  // Arithmetic of blocks

  lemma {:induction false} Pow2Add(a: nat, b: nat)
    ensures Pow2(a) * Pow2(b) == Pow2(a + b)
  {
    if a > 0 {
      Pow2Add(a - 1, b);
      assert Pow2(a) * Pow2(b) == 2 * (Pow2(a - 1) * Pow2(b));
    }
  }

  lemma Pow2Of32()
    ensures Pow2(32) == AddressCount
  {
    assert Pow2(8) == 256;
    Pow2Add(8, 8);
    Pow2Add(16, 16);
  }

  lemma Pow256Of4()
    ensures Pow256(4) == AddressCount
  {
  }

  /** The number of blocks times the size of each is the address space. */
  lemma BlocksTileSpace(prefix: nat)
    requires prefix <= 32
    ensures Pow2(prefix) * Pow2(32 - prefix) == AddressCount
    ensures prefix >= 1 ==> Pow2(prefix) >= 2
  {
    Pow2Add(prefix, 32 - prefix);
    Pow2Of32();
  }

  lemma SizeBounds(prefix: nat)
    requires prefix <= 32
    ensures Pow2(32 - prefix) <= AddressCount
    ensures prefix >= 1 ==> 2 * Pow2(32 - prefix) <= AddressCount
  {
    BlocksTileSpace(prefix);
    MulMonotone(1, Pow2(prefix), Pow2(32 - prefix));
    MulMonotone(2, Pow2(prefix), Pow2(32 - prefix));
  }

  lemma NetworkBounds(c: Block)
    requires WellFormed(c)
    ensures var h, v := Size(c), BigEndian(c.ip);
      && v - v % h + h <= AddressCount
      && (v - v % h) % h == 0 && (v - v % h) / h == v / h
  {
    Pow256Of4();
    BlocksTileSpace(c.prefix);
    FloorMultiple(BigEndian(c.ip), Size(c), Pow2(c.prefix));
  }

  /** An address is its numeric value encoded, for values below 2^32. */
  lemma AddressValue(v: nat)
    requires v < AddressCount
    ensures BigEndian(AddressOf(v)) == v
  {
    Pow256Of4();
    ToBytesValue(v, 4);
    ModUnique(v, AddressCount, 0, v);
  }

  /** The network address and the written address share their block number. */
  lemma BlockQuotient(c: Block)
    requires WellFormed(c)
    ensures Network(c) % Size(c) == 0
    ensures Network(c) / Size(c) == BigEndian(c.ip) / Size(c)
  {
    NetworkBounds(c);
  }

  /** Sharing the block number of the written address is lying in the block's
      range. */
  lemma SameBlockIsRange(c: Block, v: nat)
    requires WellFormed(c)
    ensures v / Size(c) == BigEndian(c.ip) / Size(c) <==> Network(c) <= v < Network(c) + Size(c)
  {
    var n, h := Network(c), Size(c);
    BlockQuotient(c);
    SameQuotient(n, h, v);
    if n <= v < n + h {
      OffsetInBlock(n, h, v - n);
    }
  }

  /** The k-th address of the block, for k < Size, is contained in it. */
  lemma InBlock(c: Block, k: nat)
    requires WellFormed(c) && k < Size(c)
    ensures BigEndian(AddressOf(Network(c) + k)) == Network(c) + k
    ensures Contains(c, AddressOf(Network(c) + k))
  {
    BlockQuotient(c);
    OffsetInBlock(Network(c), Size(c), k);
    AddressValue(Network(c) + k);
  }

  /** The `Hosts` loop collects one more address of the enumeration and `inc`
      moves to the next one, or out of the block after the last. */
  lemma CollectStep(c: Block, ips: seq<Address>, before: seq<byte>, after: seq<byte>)
    requires 1 <= c.prefix <= 32 && 1 <= |ips| <= Size(c)
    requires ips[..|ips| - 1] == Enumerate(c)[..|ips| - 1]
    requires before == AddressOf(Network(c) + |ips| - 1) && ips[|ips| - 1] == before
    requires after == Incremented(before)
    ensures ips == Enumerate(c)[..|ips|]
    ensures |ips| < Size(c) ==> after == AddressOf(Network(c) + |ips|) && Contains(c, after)
    ensures |ips| == Size(c) ==> !Contains(c, after)
  {
    var k := |ips|;
    EnumerateAt(c, k - 1);
    assert ips == Enumerate(c)[..k - 1] + [before];
    assert Enumerate(c)[..k] == Enumerate(c)[..k - 1] + [Enumerate(c)[k - 1]];
    StepInBlock(c, k);
  }

  /** One step of the `Hosts` loop: after `k` addresses, `inc` yields the next
      address of the block, or, once all `Size` are collected, an address
      outside it (one past the broadcast address, or 0.0.0.0 after wrapping). */
  lemma StepInBlock(c: Block, k: nat)
    requires 1 <= c.prefix <= 32 && 1 <= k <= Size(c)
    ensures k < Size(c) ==> Incremented(AddressOf(Network(c) + k - 1)) == AddressOf(Network(c) + k)
    ensures k < Size(c) ==> Contains(c, AddressOf(Network(c) + k))
    ensures k == Size(c) ==> !Contains(c, Incremented(AddressOf(Network(c) + k - 1)))
  {
    var h, n := Size(c), Network(c);
    Pow256Of4();
    IncrementedToBytes(n + k - 1, 4);
    BlockQuotient(c);
    if k < h {
      ModOfSmall(n + k, AddressCount);
      InBlock(c, k);
    } else if n + h < AddressCount {
      ModOfSmall(n + h, AddressCount);
      AddressValue(n + h);
      NextBlock(n, h);
    } else {
      ModSelf(AddressCount);
      AddressValue(0);
      LastBlockNumber(c);
    }
  }

  /** The block that ends at the top of the address space is not block 0,
      because a prefix of at least 1 makes blocks at most half the space. */
  lemma LastBlockNumber(c: Block)
    requires 1 <= c.prefix <= 32 && Network(c) + Size(c) == AddressCount
    ensures 0 / Size(c) != BigEndian(c.ip) / Size(c)
  {
    var h, n := Size(c), Network(c);
    BlockQuotient(c);
    ModOfSmall(0, h);
    SameQuotient(0, h, n);
  }
}
