/**
 Addresses and prefixes as the program holds them: bytes in network order and
 a prefix length (section 3.1 of RFC 4632, section 2.3 of RFC 4291). Every
 operation is tied to the path of the block in the tree of PrefixTree.
 */
module Netip {
  import opened PrefixTree

  /** An IPv4 address of 4 bytes or an IPv6 address of 16 bytes. */
  type Addr = a: seq<bv8> | |a| == 4 || |a| == 16 witness [0, 0, 0, 0]

  predicate Is4(a: Addr) {
    |a| == 4
  }

  function BitLen(a: Addr): nat {
    8 * |a|
  }

  datatype PrefixRaw = Prefix(addr: Addr, bits: nat)

  /** What a successful parse yields: the address may have bits set past the length. */
  type Prefix = p: PrefixRaw | p.bits <= 8 * |p.addr| witness Prefix([0, 0, 0, 0], 0)

  /** Bit k of a byte, from the high end. */
  predicate Bit(b: bv8, k: nat)
    requires k < 8
  {
    b & (0x80 >> k) != 0
  }

  function BitsOf(a: seq<bv8>): (s: seq<bool>)
    ensures |s| == 8 * |a|
    ensures forall i :: 0 <= i < |s| ==> s[i] == Bit(a[i / 8], i % 8)
  {
    seq(8 * |a|, i requires 0 <= i < 8 * |a| => Bit(a[i / 8], i % 8))
  }

  function AddrPath(a: Addr): (s: Path)
    ensures Leaf(s)
  {
    [Is4(a)] + BitsOf(a)
  }

  function Net(p: Prefix): (s: Path)
    ensures Block(s) && |s| == 1 + p.bits && s[0] == Is4(p.addr)
  {
    AddrPath(p.addr)[..1 + p.bits]
  }

  /** One byte with all but its first k bits cleared. */
  function MaskByte(b: bv8, k: nat): bv8
    requires k <= 8
  {
    b & (0xFF << (8 - k))
  }

  lemma MaskByteBits(b: bv8, k: nat, i: nat)
    requires k <= 8 && i < 8
    ensures Bit(MaskByte(b, k), i) <==> i < k && Bit(b, i)
  {
  }

  /** One byte with its bit k set. */
  function SetBitByte(b: bv8, k: nat): bv8
    requires k < 8
  {
    b | (0x80 >> k)
  }

  lemma SetBitByteBits(b: bv8, k: nat, i: nat)
    requires k < 8 && i < 8
    ensures Bit(SetBitByte(b, k), i) <==> i == k || Bit(b, i)
  {
    if i == k {
      assert (b | (0x80 >> k)) & (0x80 >> k) != 0;
    } else {
      assert (0x80 as bv8 >> k) & (0x80 >> i) == 0;
    }
  }

  lemma ByteExt(b: bv8, c: bv8)
    requires forall i :: 0 <= i < 8 ==> (Bit(b, i) <==> Bit(c, i))
    ensures b == c
  {
    assert Bit(b, 0) == Bit(c, 0) && Bit(b, 1) == Bit(c, 1) && Bit(b, 2) == Bit(c, 2) && Bit(b, 3) == Bit(c, 3);
    assert Bit(b, 4) == Bit(c, 4) && Bit(b, 5) == Bit(c, 5) && Bit(b, 6) == Bit(c, 6) && Bit(b, 7) == Bit(c, 7);
  }

  /** How many leading bits of byte j a prefix of the given length keeps. */
  function Keep(bits: nat, j: nat): (k: nat)
    ensures k <= 8
  {
    if bits <= 8 * j then 0 else if bits >= 8 * j + 8 then 8 else bits - 8 * j
  }

  /** The prefix with every address bit past its length cleared. */
  function Masked(p: Prefix): Prefix {
    Prefix(seq(|p.addr|, j requires 0 <= j < |p.addr| => MaskByte(p.addr[j], Keep(p.bits, j))), p.bits)
  }

  predicate IsMasked(p: Prefix) {
    forall i :: p.bits <= i < BitLen(p.addr) ==> !BitsOf(p.addr)[i]
  }

  lemma MaskedBits(p: Prefix, i: nat)
    requires i < BitLen(p.addr)
    ensures BitsOf(Masked(p).addr)[i] <==> i < p.bits && BitsOf(p.addr)[i]
  {
    hide Bit, MaskByte;
    MaskByteBits(p.addr[i / 8], Keep(p.bits, i / 8), i % 8);
  }

  /** Masking keeps the block and clears the rest. */
  lemma MaskedNet(p: Prefix)
    ensures Net(Masked(p)) == Net(p) && IsMasked(Masked(p))
  {
    forall i | 0 <= i < BitLen(p.addr)
      ensures BitsOf(Masked(p).addr)[i] <==> i < p.bits && BitsOf(p.addr)[i]
    {
      MaskedBits(p, i);
    }
  }

  lemma BitsExt(a: seq<bv8>, b: seq<bv8>)
    requires |a| == |b| && BitsOf(a) == BitsOf(b)
    ensures a == b
  {
    forall j | 0 <= j < |a| ensures a[j] == b[j] {
      forall i | 0 <= i < 8 ensures Bit(a[j], i) <==> Bit(b[j], i) {
        assert (8 * j + i) / 8 == j && (8 * j + i) % 8 == i;
        assert BitsOf(a)[8 * j + i] == BitsOf(b)[8 * j + i];
      }
      ByteExt(a[j], b[j]);
    }
  }

  /** A masked prefix is determined by its block. */
  lemma MaskedExt(p: Prefix, q: Prefix)
    requires IsMasked(p) && IsMasked(q) && Net(p) == Net(q)
    ensures p == q
  {
    assert Is4(p.addr) == Net(p)[0] == Net(q)[0] == Is4(q.addr);
    forall i | 0 <= i < BitLen(p.addr) ensures BitsOf(p.addr)[i] == BitsOf(q.addr)[i] {
      if i < p.bits {
        assert Net(p)[1 + i] == Net(q)[1 + i];
      }
    }
    BitsExt(p.addr, q.addr);
  }

  /** Equality of the first m bits, as the library tests it: by masking both. */
  predicate SameLead(a: Addr, b: Addr, m: nat)
    requires |a| == |b| && m <= BitLen(a)
  {
    Masked(Prefix(a, m)) == Masked(Prefix(b, m))
  }

  lemma SameLeadNets(a: Addr, b: Addr, m: nat)
    requires |a| == |b| && m <= BitLen(a)
    ensures SameLead(a, b, m) <==> Net(Prefix(a, m)) == Net(Prefix(b, m))
  {
    MaskedNet(Prefix(a, m));
    MaskedNet(Prefix(b, m));
    if Net(Prefix(a, m)) == Net(Prefix(b, m)) {
      MaskedExt(Masked(Prefix(a, m)), Masked(Prefix(b, m)));
    }
  }

  /** Whether the prefixes hold a common address. Families never overlap. */
  predicate Overlaps(p: Prefix, q: Prefix) {
    Is4(p.addr) == Is4(q.addr) && SameLead(p.addr, q.addr, if p.bits <= q.bits then p.bits else q.bits)
  }

  predicate Contains(p: Prefix, a: Addr) {
    BitLen(p.addr) == BitLen(a) && SameLead(p.addr, a, p.bits)
  }

  lemma OverlapsNets(p: Prefix, q: Prefix)
    ensures Overlaps(p, q) <==> Comparable(Net(p), Net(q))
  {
    hide SameLead, BitsOf;
    if Is4(p.addr) == Is4(q.addr) {
      var m := if p.bits <= q.bits then p.bits else q.bits;
      SameLeadNets(p.addr, q.addr, m);
      assert Net(Prefix(p.addr, m)) == Net(p)[..1 + m];
      assert Net(Prefix(q.addr, m)) == Net(q)[..1 + m];
    } else {
      assert Net(p)[0] != Net(q)[0];
    }
  }

  lemma ContainsNets(p: Prefix, a: Addr)
    ensures Contains(p, a) <==> Net(p) <= AddrPath(a)
  {
    hide SameLead, BitsOf;
    if BitLen(p.addr) == BitLen(a) {
      SameLeadNets(p.addr, a, p.bits);
      assert Net(Prefix(a, p.bits)) == AddrPath(a)[..1 + p.bits];
    } else {
      assert Net(p)[0] != AddrPath(a)[0];
    }
  }

  /** The address with bit n set, by an edit of the one byte that holds it. */
  function SetBit(a: Addr, n: nat): (b: Addr)
    requires n < BitLen(a)
    ensures |b| == |a|
  {
    a[n / 8 := SetBitByte(a[n / 8], n % 8)]
  }

  /** The byte edit sets one bit of the address and no other. */
  lemma SetBitAt(a: Addr, n: nat, i: nat)
    requires n < BitLen(a) && i < BitLen(a)
    ensures BitsOf(SetBit(a, n))[i] <==> i == n || BitsOf(a)[i]
  {
    hide Bit, SetBitByte;
    var b := SetBit(a, n);
    assert BitsOf(b)[i] == Bit(b[i / 8], i % 8);
    if i / 8 == n / 8 {
      SetBitByteBits(a[n / 8], n % 8, i % 8);
      assert i % 8 == n % 8 ==> i == n;
    } else {
      assert b[i / 8] == a[i / 8];
    }
  }

  /** The two halves of a prefix that is not a single address. */
  function SplitPrefix(p: Prefix): (halves: (Prefix, Prefix))
    requires p.bits < BitLen(p.addr)
  {
    var bits := p.bits + 1;
    var lo := Masked(Prefix(p.addr, bits));
    var hi := Masked(Prefix(SetBit(p.addr, p.bits), bits));
    (lo, hi)
  }

  /** The halves are masked, and they are the two children of the block. */
  lemma SplitNets(p: Prefix)
    requires p.bits < BitLen(p.addr) && IsMasked(p)
    ensures var (lo, hi) := SplitPrefix(p);
            && Net(lo) == Net(p) + [false] && Net(hi) == Net(p) + [true]
            && IsMasked(lo) && IsMasked(hi) && lo.bits == hi.bits == p.bits + 1
  {
    hide Masked, SetBit, Net, Bit;
    var n := p.bits;
    var b := SetBit(p.addr, n);
    MaskedNet(Prefix(p.addr, n + 1));
    MaskedNet(Prefix(b, n + 1));
    SetBitAt(p.addr, n, n);
    NetSetBit(p.addr, n);
    NetLonger(p.addr, n);
    NetLonger(b, n);
  }

  /** Setting a bit past the length leaves the block alone. */
  lemma NetSetBit(a: Addr, n: nat)
    requires n < BitLen(a)
    ensures Net(Prefix(SetBit(a, n), n)) == Net(Prefix(a, n))
  {
    hide SetBit, Bit;
    forall i | 0 <= i < n ensures BitsOf(SetBit(a, n))[i] == BitsOf(a)[i] {
      SetBitAt(a, n, i);
    }
  }

  lemma NetLonger(a: Addr, n: nat)
    requires n < BitLen(a)
    ensures Net(Prefix(a, n + 1)) == Net(Prefix(a, n)) + [BitsOf(a)[n]]
  {
  }

  /** The halves partition the prefix: each of its addresses is in exactly one of them. */
  lemma SplitPartitions(p: Prefix, a: Addr)
    requires p.bits < BitLen(p.addr) && IsMasked(p)
    ensures var (lo, hi) := SplitPrefix(p);
            && (Contains(p, a) <==> Contains(lo, a) || Contains(hi, a))
            && !(Contains(lo, a) && Contains(hi, a))
  {
    var (lo, hi) := SplitPrefix(p);
    SplitNets(p);
    ContainsNets(p, a);
    ContainsNets(lo, a);
    ContainsNets(hi, a);
    if Is4(p.addr) == Is4(a) {
      ChildrenPartition(Net(p), AddrPath(a));
    }
  }

  lemma ChildrenPartition(p: Path, a: Path)
    requires |p| < |a|
    ensures p <= a <==> (p + [false] <= a || p + [true] <= a)
    ensures !(p + [false] <= a && p + [true] <= a)
  {
    if p <= a {
      assert p + [a[|p|]] == a[..|p| + 1];
      assert a[|p|] == true || a[|p|] == false;
    }
  }

  // ---------------------------------------------------------------------------
  // IPv4-mapped IPv6 addresses (section 2.5.5.2 of RFC 4291)
  // ---------------------------------------------------------------------------

  const MAPPED_LEAD: seq<bv8> := [0, 0, 0, 0, 0, 0, 0, 0, 0, 0, 0xFF, 0xFF]

  predicate Mapped(a: Addr) {
    |a| == 16 && a[..12] == MAPPED_LEAD
  }

  /** The IPv4 address inside a mapped address; any other address unchanged. */
  function Unmap(a: Addr): Addr {
    if Mapped(a) then a[12..] else a
  }

  /** The IPv4 address v in its mapped form gives v back; only such addresses change. */
  lemma UnmapMeans(a: Addr)
    ensures |a| == 4 ==> Unmap([0, 0, 0, 0, 0, 0, 0, 0, 0, 0, 0xFF, 0xFF] + a) == a
    ensures Unmap(a) != a ==> |Unmap(a)| == 4 && a == [0, 0, 0, 0, 0, 0, 0, 0, 0, 0, 0xFF, 0xFF] + Unmap(a)
  {
    if |a| == 4 {
      var m: Addr := [0, 0, 0, 0, 0, 0, 0, 0, 0, 0, 0xFF, 0xFF] + a;
      assert m[..12] == MAPPED_LEAD && m[12..] == a;
    }
    if Mapped(a) {
      assert a == a[..12] + a[12..];
    }
  }

  /** The block that holds the IPv4-mapped addresses, ::ffff:0:0/96. */
  function MappedBlock(): Path {
    [false] + BitsOf(MAPPED_LEAD)
  }

  /** The family the program gives a block: IPv4, or inside the mapped block. */
  predicate Family4(q: Path)
    requires Block(q)
  {
    q[0] || MappedBlock() <= q
  }

  lemma MappedPath(a: Addr)
    ensures Mapped(a) <==> MappedBlock() <= AddrPath(a)
  {
    if |a| == 16 {
      assert BitsOf(a)[..96] == BitsOf(a[..12]);
      if BitsOf(a[..12]) == BitsOf(MAPPED_LEAD) {
        BitsExt(a[..12], MAPPED_LEAD);
      }
      assert AddrPath(a)[..97] == [false] + BitsOf(a)[..96];
      assert MappedBlock()[1..] == BitsOf(MAPPED_LEAD);
      assert AddrPath(a)[..97][1..] == BitsOf(a)[..96];
    } else {
      assert AddrPath(a)[0] != MappedBlock()[0];
    }
  }

  /** Masking, unmapping and testing the family of the address reads the family of the block. */
  lemma FamilyOfBlock(p: Prefix)
    ensures Is4(Unmap(Masked(p).addr)) <==> Family4(Net(p))
  {
    var m := Masked(p);
    MaskedNet(p);
    MappedPath(m.addr);
    if !Is4(p.addr) {
      assert MappedBlock() <= Net(p) ==> MappedBlock() <= AddrPath(m.addr);
      if p.bits < 96 {
        assert !BitsOf(m.addr)[95];
        assert MappedBlock()[96] == Bit(MAPPED_LEAD[11], 7);
      } else {
        assert Net(p) == AddrPath(m.addr)[..1 + p.bits];
      }
    }
  }

  // ---------------------------------------------------------------------------
  // Every leaf of the tree is an address
  // ---------------------------------------------------------------------------

  lemma ZeroBits(a: Addr, i: nat)
    requires i < BitLen(a) && a[i / 8] == 0
    ensures !BitsOf(a)[i]
  {
  }

  lemma ZeroAddr(v4: bool) returns (a: Addr)
    ensures Is4(a) == v4 && BitLen(a) == Width(v4)
    ensures forall i :: 0 <= i < BitLen(a) ==> !BitsOf(a)[i]
  {
    a := if v4 then [0, 0, 0, 0] else [0, 0, 0, 0, 0, 0, 0, 0, 0, 0, 0, 0, 0, 0, 0, 0];
    forall i | 0 <= i < BitLen(a) ensures !BitsOf(a)[i] {
      ZeroBits(a, i);
    }
  }

  lemma SetBitBits(a: Addr, n: nat)
    requires n < BitLen(a)
    ensures Is4(SetBit(a, n)) == Is4(a) && BitLen(SetBit(a, n)) == BitLen(a)
    ensures forall i :: 0 <= i < BitLen(a) ==> (BitsOf(SetBit(a, n))[i] <==> i == n || BitsOf(a)[i])
  {
    hide Bit, SetBit, BitsOf;
    forall i | 0 <= i < BitLen(a) ensures BitsOf(SetBit(a, n))[i] <==> i == n || BitsOf(a)[i] {
      SetBitAt(a, n, i);
    }
  }

  lemma LeafAddr(leaf: Path) returns (a: Addr)
    requires Leaf(leaf)
    ensures AddrPath(a) == leaf
  {
    hide Bit, SetBit, BitsOf;
    a := ZeroAddr(leaf[0]);
    var n := 0;
    while n < BitLen(a)
      invariant n <= BitLen(a) && |leaf| == 1 + BitLen(a) && Is4(a) == leaf[0]
      invariant forall i :: 0 <= i < BitLen(a) ==> BitsOf(a)[i] == (i < n && leaf[1 + i])
    {
      if leaf[1 + n] {
        SetBitBits(a, n);
        a := SetBit(a, n);
      }
      n := n + 1;
    }
    assert BitsOf(a) == leaf[1..];
  }
}
