/**
 The class exemptions: cutting exempt blocks out of the reserved list
 (cutPrefix and subtractExempt of internal/netpol/generator.go).
 */
module Exemptions {
  import opened PrefixTree
  import opened Netip

  /** A configured address block: text that does not parse, or the prefix it parses to. */
  datatype Cidr = Bad | Text(prefix: Prefix)

  predicate Parses(cs: seq<Cidr>) {
    forall c :: c in cs ==> c.Text?
  }

  predicate AllMasked(ps: seq<Prefix>) {
    forall p :: p in ps ==> IsMasked(p)
  }

  function Nets(ps: seq<Prefix>): (ns: seq<Path>)
    ensures |ns| == |ps| && Blocks(ns)
  {
    seq(|ps|, i requires 0 <= i < |ps| => Net(ps[i]))
  }

  function CidrNets(cs: seq<Cidr>): (ns: seq<Path>)
    requires Parses(cs)
    ensures |ns| == |cs| && Blocks(ns)
  {
    seq(|cs|, i requires 0 <= i < |cs| => Net(cs[i].prefix))
  }

  /** The blocks of the reserved list that the exemptions leave. */
  function EffectiveNets(reserved: seq<Cidr>, holes: seq<Path>): seq<Path>
    requires Parses(reserved)
  {
    if reserved == [] then []
    else EffectiveNets(reserved[..|reserved| - 1], holes) + Remainder(Net(reserved[|reserved| - 1].prefix), holes)
  }

  lemma NetsAppend(ps: seq<Prefix>, qs: seq<Prefix>)
    ensures Nets(ps + qs) == Nets(ps) + Nets(qs)
  {
  }

  lemma SiblingsStep(c: Path, h: Path)
    requires c < h
    ensures h[..|c| + 1] == c + [h[|c|]] <= h
    ensures Siblings(c, h) == [c + [!h[|c|]]] + Siblings(c + [h[|c|]], h)
    ensures Comparable(c + [false], h) <==> !h[|c|]
  {
    assert h[..|c| + 1] == c + [h[|c|]];
    assert h[|c|] ==> !Comparable(c + [false], h);
  }

  /** One level of the descent: one half still overlaps the hole, the other is left beside it. */
  lemma DescendStep(cur: Prefix, hole: Prefix)
    requires IsMasked(cur) && cur.bits < hole.bits && Net(cur) <= Net(hole)
    ensures cur.bits < BitLen(cur.addr)
    ensures var (lo, hi) := SplitPrefix(cur);
            var (next, beside) := if Overlaps(lo, hole) then (lo, hi) else (hi, lo);
            && IsMasked(next) && IsMasked(beside) && Net(next) <= Net(hole) && next.bits == cur.bits + 1
            && Siblings(Net(cur), Net(hole)) == [Net(beside)] + Siblings(Net(next), Net(hole))
  {
    hide SplitPrefix, Net, Overlaps, IsMasked;
    assert Net(cur)[0] == Net(hole)[0];
    var (lo, hi) := SplitPrefix(cur);
    SplitNets(cur);
    OverlapsNets(lo, hole);
    SiblingsStep(Net(cur), Net(hole));
  }

  /** Walks from p down to hole and keeps the sibling at each level. */
  method Descend(p: Prefix, hole: Prefix) returns (out: seq<Prefix>)
    requires IsMasked(p) && p.bits < hole.bits && Net(p) <= Net(hole)
    ensures AllMasked(out)
    ensures Nets(out) == Siblings(Net(p), Net(hole))
  {
    hide SplitPrefix, Net, Overlaps, IsMasked;
    out := [];
    var cur := p;
    while cur.bits < hole.bits
      invariant cur.bits <= hole.bits && IsMasked(cur) && AllMasked(out)
      invariant Net(cur) <= Net(hole)
      invariant Nets(out) + Siblings(Net(cur), Net(hole)) == Siblings(Net(p), Net(hole))
      decreases hole.bits - cur.bits
    {
      DescendStep(cur, hole);
      var (lo, hi) := SplitPrefix(cur);
      if Overlaps(lo, hole) {
        NetsAppend(out, [hi]);
        out := out + [hi];
        cur := lo;
      } else {
        NetsAppend(out, [lo]);
        out := out + [lo];
        cur := hi;
      }
    }
    assert Net(cur) == Net(hole);
  }

  /** Removes hole from every prefix of a list. */
  method CutPrefix(blocks: seq<Prefix>, hole: Prefix) returns (out: seq<Prefix>)
    requires AllMasked(blocks)
    ensures AllMasked(out)
    ensures Nets(out) == CutAll(Nets(blocks), Net(hole))
  {
    hide Net, IsMasked, Overlaps, Siblings;
    out := [];
    for i := 0 to |blocks|
      invariant AllMasked(out)
      invariant Nets(out) == CutAll(Nets(blocks[..i]), Net(hole))
    {
      var p := blocks[i];
      var left: seq<Prefix> := [];
      OverlapsNets(p, hole);
      if !Overlaps(p, hole) {
        left := [p];
      } else if hole.bits <= p.bits {
        // hole contains p.
      } else {
        left := Descend(p, hole);
      }
      assert Nets(left) == CutOne(Net(p), Net(hole));
      NetsAppend(out, left);
      NetsAppend(blocks[..i], [p]);
      assert blocks[..i + 1] == blocks[..i] + [p];
      out := out + left;
    }
    assert blocks[..|blocks|] == blocks;
  }

  /** Nothing is cut from a block that no hole overlaps. */
  lemma {:induction false} RemainderUntouched(root: Path, holes: seq<Path>)
    requires forall h :: h in holes ==> !Comparable(root, h)
    ensures Remainder(root, holes) == [root]
    decreases |holes|
  {
    if holes != [] {
      RemainderUntouched(root, holes[..|holes| - 1]);
      assert CutAll([], holes[|holes| - 1]) == [];
    }
  }

  /** No exemption overlaps the reserved entry. */
  predicate Untouched(c: Cidr, exempt: seq<Cidr>) {
    c.Text? && forall e :: e in exempt && e.Text? ==> !Overlaps(c.prefix, e.prefix)
  }

  lemma UntouchedNets(c: Cidr, exempt: seq<Cidr>)
    requires Parses(exempt) && Untouched(c, exempt)
    ensures Remainder(Net(c.prefix), CidrNets(exempt)) == [Net(c.prefix)]
  {
    forall h | h in CidrNets(exempt) ensures !Comparable(Net(c.prefix), h) {
      var i :| 0 <= i < |exempt| && h == CidrNets(exempt)[i];
      assert exempt[i] in exempt;
      OverlapsNets(c.prefix, exempt[i].prefix);
    }
    RemainderUntouched(Net(c.prefix), CidrNets(exempt));
  }

  /** Reads a list of blocks, or fails on the first text that does not parse. */
  method ParseMasked(cs: seq<Cidr>) returns (ok: bool, ps: seq<Prefix>)
    ensures ok <==> Parses(cs)
    ensures ok ==> AllMasked(ps) && Nets(ps) == CidrNets(cs)
  {
    hide Masked, Net, IsMasked;
    ok, ps := true, [];
    for i := 0 to |cs|
      invariant Parses(cs[..i])
      invariant |ps| == i && AllMasked(ps) && Nets(ps) == CidrNets(cs[..i])
    {
      if cs[i].Bad? {
        assert cs[i] in cs;
        return false, [];
      }
      MaskedNet(cs[i].prefix);
      NetsAppend(ps, [Masked(cs[i].prefix)]);
      ps := ps + [Masked(cs[i].prefix)];
      assert CidrNets(cs[..i + 1]) == CidrNets(cs[..i]) + [Net(cs[i].prefix)];
    }
    assert cs[..|cs|] == cs;
  }

  /** Cuts every hole out of one block. */
  method CutHoles(rp: Prefix, holes: seq<Prefix>) returns (pieces: seq<Prefix>)
    requires IsMasked(rp)
    ensures AllMasked(pieces) && Nets(pieces) == Remainder(Net(rp), Nets(holes))
  {
    hide Net, IsMasked, CutAll;
    pieces := [rp];
    for k := 0 to |holes|
      invariant AllMasked(pieces)
      invariant Nets(pieces) == Remainder(Net(rp), Nets(holes)[..k])
    {
      pieces := CutPrefix(pieces, holes[k]);
      assert Nets(holes)[..k + 1] == Nets(holes)[..k] + [Net(holes[k])];
    }
    assert Nets(holes)[..|holes|] == Nets(holes);
  }

  /** What one reserved entry becomes: itself when nothing was cut, else its pieces. */
  method SubtractEntry(r: Cidr, holes: seq<Prefix>) returns (out: seq<Cidr>)
    requires r.Text?
    ensures Parses(out) && CidrNets(out) == Remainder(Net(r.prefix), Nets(holes))
    ensures Remainder(Net(r.prefix), Nets(holes)) == [Net(r.prefix)] ==> out == [r]
  {
    hide Net, IsMasked, Masked, Remainder;
    var rp := Masked(r.prefix);
    MaskedNet(r.prefix);
    var pieces := CutHoles(rp, holes);
    if Nets(pieces) == [Net(rp)] {
      assert pieces[0] in pieces && Nets(pieces)[0] == Net(pieces[0]);
      MaskedExt(pieces[0], rp);
    }
    if |pieces| == 1 && pieces[0] == rp {
      return [r];
    }
    out := [];
    for k := 0 to |pieces|
      invariant Parses(out) && |out| == k && CidrNets(out) == Nets(pieces)[..k]
    {
      out := out + [Text(pieces[k])];
    }
    assert Nets(pieces)[..|pieces|] == Nets(pieces);
  }

  // ---------------------------------------------------------------------------
  // What the effective list means
  // ---------------------------------------------------------------------------

  /** Some block of the list holds the address. */
  predicate InList(cs: seq<Cidr>, a: Addr) {
    exists c :: c in cs && c.Text? && Contains(c.prefix, a)
  }

  /** The address is reserved and no exemption frees it. */
  predicate LeftReserved(reserved: seq<Cidr>, exempt: seq<Cidr>, a: Addr) {
    InList(reserved, a) && !InList(exempt, a)
  }

  /** Some block of the list has the family. */
  predicate FamilyIn(cs: seq<Cidr>, v4: bool) {
    exists c :: c in cs && c.Text? && Family4(Net(c.prefix)) == v4
  }

  /** The exemptions leave a reserved block of the family. */
  ghost predicate FamilyKept(reserved: seq<Cidr>, exempt: seq<Cidr>, v4: bool)
    requires Parses(exempt)
  {
    exists c, q :: c in reserved && c.Text? && Canonical(q, Net(c.prefix), CidrNets(exempt)) && Family4(q) == v4
  }

  lemma {:induction false} EffectiveMembers(reserved: seq<Cidr>, holes: seq<Path>, q: Path)
    requires Parses(reserved)
    ensures q in EffectiveNets(reserved, holes) <==> exists c :: c in reserved && q in Remainder(Net(c.prefix), holes)
  {
    if reserved != [] {
      var front, last := reserved[..|reserved| - 1], reserved[|reserved| - 1];
      assert reserved == front + [last];
      EffectiveMembers(front, holes, q);
    }
  }

  lemma InListNets(cs: seq<Cidr>, a: Addr)
    requires Parses(cs)
    ensures InList(cs, a) <==> InSome(AddrPath(a), CidrNets(cs))
  {
    hide Contains, Net, AddrPath;
    if InList(cs, a) {
      var c :| c in cs && c.Text? && Contains(c.prefix, a);
      ContainsNets(c.prefix, a);
      var i :| 0 <= i < |cs| && cs[i] == c;
      assert CidrNets(cs)[i] in CidrNets(cs) && CidrNets(cs)[i] <= AddrPath(a);
    } else if InSome(AddrPath(a), CidrNets(cs)) {
      var i :| 0 <= i < |cs| && CidrNets(cs)[i] <= AddrPath(a);
      ContainsNets(cs[i].prefix, a);
    }
  }

  /** An address is in the effective list exactly when it is reserved and not exempt. */
  lemma EffectiveExact(reserved: seq<Cidr>, exempt: seq<Cidr>, effective: seq<Cidr>, a: Addr)
    requires Parses(reserved) && Parses(exempt) && Parses(effective)
    requires CidrNets(effective) == EffectiveNets(reserved, CidrNets(exempt))
    ensures InList(effective, a) <==> LeftReserved(reserved, exempt, a)
  {
    hide Contains, Net, AddrPath, InList, Remainder, EffectiveNets;
    var leaf, holes := AddrPath(a), CidrNets(exempt);
    InListNets(effective, a);
    InListNets(reserved, a);
    InListNets(exempt, a);
    if InSome(leaf, EffectiveNets(reserved, holes)) {
      var q :| q in EffectiveNets(reserved, holes) && q <= leaf;
      EffectiveMembers(reserved, holes, q);
      var c :| c in reserved && q in Remainder(Net(c.prefix), holes);
      RemainderExact(Net(c.prefix), holes, leaf);
      var i :| 0 <= i < |reserved| && reserved[i] == c;
      assert CidrNets(reserved)[i] in CidrNets(reserved) && CidrNets(reserved)[i] <= leaf;
    }
    if InSome(leaf, CidrNets(reserved)) && !InSome(leaf, holes) {
      var i :| 0 <= i < |reserved| && CidrNets(reserved)[i] <= leaf;
      var root := Net(reserved[i].prefix);
      RemainderExact(root, holes, leaf);
      var q :| q in Remainder(root, holes) && q <= leaf;
      EffectiveMembers(reserved, holes, q);
    }
  }

  lemma EffectiveFamily(reserved: seq<Cidr>, exempt: seq<Cidr>, effective: seq<Cidr>, v4: bool)
    requires Parses(reserved) && Parses(exempt) && Parses(effective)
    requires CidrNets(effective) == EffectiveNets(reserved, CidrNets(exempt))
    ensures FamilyIn(effective, v4) <==> FamilyKept(reserved, exempt, v4)
  {
    hide Net, Remainder, EffectiveNets, Family4;
    var holes := CidrNets(exempt);
    if FamilyIn(effective, v4) {
      var i :| 0 <= i < |effective| && Family4(Net(effective[i].prefix)) == v4;
      var q := CidrNets(effective)[i];
      EffectiveMembers(reserved, holes, q);
      var c :| c in reserved && q in Remainder(Net(c.prefix), holes);
      RemainderCanonical(Net(c.prefix), holes, q);
    }
    if FamilyKept(reserved, exempt, v4) {
      var c, q :| c in reserved && c.Text? && Canonical(q, Net(c.prefix), holes) && Family4(q) == v4;
      RemainderCanonical(Net(c.prefix), holes, q);
      EffectiveMembers(reserved, holes, q);
      var i :| 0 <= i < |effective| && CidrNets(effective)[i] == q;
      assert effective[i] in effective;
    }
  }

  /** Without exemptions every reserved block is left as it is. */
  lemma FamilyWithoutExemptions(reserved: seq<Cidr>, v4: bool)
    ensures FamilyIn(reserved, v4) <==> FamilyKept(reserved, [], v4)
  {
    hide Net, Family4, Canonical;
    forall c, q | c in reserved && c.Text? ensures Canonical(q, Net(c.prefix), CidrNets([])) <==> q == Net(c.prefix) {
      RemainderCanonical(Net(c.prefix), CidrNets([]), q);
    }
  }

  datatype Effective = Invalid | Effective(cidrs: seq<Cidr>)

  /**
   Removes the exempt ranges from the reserved list. Without exemptions the
   list is returned unread; otherwise any text that does not parse is an error.
   A reserved entry that no exemption touches keeps its spelling.
   */
  method SubtractExempt(reserved: seq<Cidr>, exempt: seq<Cidr>) returns (r: Effective)
    ensures r.Invalid? <==> exempt != [] && !(Parses(exempt) && Parses(reserved))
    ensures exempt == [] ==> r == Effective(reserved)
    ensures r.Effective? && exempt != [] ==>
              Parses(r.cidrs) && CidrNets(r.cidrs) == EffectiveNets(reserved, CidrNets(exempt))
    ensures r.Effective? ==> forall a :: InList(r.cidrs, a) <==> LeftReserved(reserved, exempt, a)
    ensures r.Effective? ==> Parses(exempt) && forall v4 :: FamilyIn(r.cidrs, v4) <==> FamilyKept(reserved, exempt, v4)
    ensures r.Effective? ==> forall c :: c in reserved && Untouched(c, exempt) ==> c in r.cidrs
  {
    hide Net, IsMasked, Masked, Remainder, Untouched, FamilyIn, FamilyKept, Contains;
    if exempt == [] {
      forall v4 ensures FamilyIn(reserved, v4) <==> FamilyKept(reserved, exempt, v4) {
        FamilyWithoutExemptions(reserved, v4);
      }
      return Effective(reserved);
    }
    var ok, holes := ParseMasked(exempt);
    if !ok {
      return Invalid;
    }
    var out: seq<Cidr> := [];
    for i := 0 to |reserved|
      invariant Parses(reserved[..i]) && Parses(out)
      invariant CidrNets(out) == EffectiveNets(reserved[..i], Nets(holes))
      invariant forall c :: c in reserved[..i] && Untouched(c, exempt) ==> c in out
    {
      var c := reserved[i];
      if c.Bad? {
        assert c in reserved;
        return Invalid;
      }
      var pieces := SubtractEntry(c, holes);
      if Untouched(c, exempt) {
        UntouchedNets(c, exempt);
      }
      assert reserved[..i + 1] == reserved[..i] + [c];
      assert CidrNets(out + pieces) == CidrNets(out) + CidrNets(pieces);
      out := out + pieces;
    }
    assert reserved[..|reserved|] == reserved;
    forall a ensures InList(out, a) <==> LeftReserved(reserved, exempt, a) {
      EffectiveExact(reserved, exempt, out, a);
    }
    forall v4 ensures FamilyIn(out, v4) <==> FamilyKept(reserved, exempt, v4) {
      EffectiveFamily(reserved, exempt, out, v4);
    }
    return Effective(out);
  }
}
