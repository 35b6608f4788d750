/**
 Address blocks as paths of a binary tree.

 A block of addresses is the path from the root of the tree to the block:
 first the address family, then the leading address bits. A block holds an
 address exactly when its path is a prefix of the address's path, so the
 laminar structure of CIDR blocks is the prefix order on sequences.
 */
module PrefixTree {

  type Path = seq<bool>

  /** The number of address bits in a family: IPv4 is `true`. */
  function Width(v4: bool): nat {
    if v4 then 32 else 128
  }

  /** A block: a family and at most Width bits. */
  predicate Block(p: Path) {
    1 <= |p| <= 1 + Width(p[0])
  }

  /** A single address: a family and all of its bits. */
  predicate Leaf(a: Path) {
    1 <= |a| && |a| == 1 + Width(a[0])
  }

  /** Two blocks overlap exactly when one contains the other. */
  predicate Comparable(p: Path, q: Path) {
    p <= q || q <= p
  }

  /** The blocks left beside the path that descends from p to hole. */
  function Siblings(p: Path, hole: Path): seq<Path>
    requires p <= hole
    decreases |hole| - |p|
  {
    if |p| == |hole| then [] else [p + [!hole[|p|]]] + Siblings(hole[..|p| + 1], hole)
  }

  /** What is left of block p once hole is removed. */
  function CutOne(p: Path, hole: Path): seq<Path> {
    if !Comparable(p, hole) then [p]
    else if |hole| <= |p| then []
    else Siblings(p, hole)
  }

  /** What is left of a list of blocks once hole is removed. */
  function CutAll(blocks: seq<Path>, hole: Path): seq<Path> {
    if blocks == [] then []
    else CutAll(blocks[..|blocks| - 1], hole) + CutOne(blocks[|blocks| - 1], hole)
  }

  /** What is left of one block once every hole is removed in turn. */
  function Remainder(root: Path, holes: seq<Path>): seq<Path> {
    if holes == [] then [root]
    else CutAll(Remainder(root, holes[..|holes| - 1]), holes[|holes| - 1])
  }

  /** Address a is to be kept: inside root and in no hole. */
  predicate Wanted(a: Path, root: Path, holes: seq<Path>) {
    root <= a && forall h :: h in holes ==> !(h <= a)
  }

  predicate InSome(a: Path, blocks: seq<Path>) {
    exists q :: q in blocks && q <= a
  }

  /** Every address of block q is wanted. */
  ghost predicate AllWanted(q: Path, root: Path, holes: seq<Path>) {
    forall a :: Leaf(a) && q <= a ==> Wanted(a, root, holes)
  }

  /** q is a maximal block of wanted addresses: no larger block holds only wanted ones. */
  ghost predicate Canonical(q: Path, root: Path, holes: seq<Path>) {
    && Block(q)
    && AllWanted(q, root, holes)
    && forall k :: 1 <= k < |q| ==> !AllWanted(q[..k], root, holes)
  }

  predicate Disjoint(blocks: seq<Path>) {
    forall i, j :: 0 <= i < j < |blocks| ==> !Comparable(blocks[i], blocks[j])
  }

  predicate Blocks(ps: seq<Path>) {
    forall p :: p in ps ==> Block(p)
  }

  // ---------------------------------------------------------------------------
  // A local reading of "all addresses are wanted"
  // ---------------------------------------------------------------------------

  predicate Inside(q: Path, root: Path, holes: seq<Path>) {
    root <= q && forall h :: h in holes ==> !Comparable(q, h)
  }

  predicate Maximal(q: Path, root: Path, holes: seq<Path>) {
    Inside(q, root, holes) && (q == root || !Inside(q[..|q| - 1], root, holes))
  }

  /** Some address of a block. */
  function FirstLeaf(q: Path): (a: Path)
    requires Block(q)
    ensures Leaf(a) && q <= a
    decreases 1 + Width(q[0]) - |q|
  {
    if |q| == 1 + Width(q[0]) then q else FirstLeaf(q + [false])
  }

  /** Two blocks that hold a common address overlap. */
  lemma CommonAddress(p: Path, q: Path, a: Path)
    ensures p <= a && q <= a ==> Comparable(p, q)
  {
    if p <= a && q <= a {
      assert p == a[..|p|] && q == a[..|q|];
    }
  }

  /** A block that is not inside holds an address that is not wanted. */
  lemma UnwantedWitness(q: Path, root: Path, holes: seq<Path>) returns (a: Path)
    requires Block(q) && Block(root) && Blocks(holes)
    requires !Inside(q, root, holes)
    ensures Leaf(a) && q <= a && !Wanted(a, root, holes)
  {
    a := FirstLeaf(q);
    if !Comparable(q, root) {
      CommonAddress(q, root, a);
    } else if |q| < |root| {
      // Step off the path to root just below q.
      var off := q + [!root[|q|]];
      a := FirstLeaf(off);
      assert a[|q|] == off[|q|];
    } else {
      var h :| h in holes && Comparable(q, h);
      if q <= h {
        a := FirstLeaf(h);
      }
      assert h <= a;
    }
  }

  lemma InsideIffAllWanted(q: Path, root: Path, holes: seq<Path>)
    requires Block(q) && Block(root) && Blocks(holes)
    ensures Inside(q, root, holes) <==> AllWanted(q, root, holes)
  {
    if Inside(q, root, holes) {
      forall a, h | Leaf(a) && q <= a && h in holes ensures !(h <= a) {
        CommonAddress(q, h, a);
      }
    } else {
      var a := UnwantedWitness(q, root, holes);
    }
  }

  /** Going down from a block that is inside stays inside. */
  lemma InsideBelow(p: Path, q: Path, root: Path, holes: seq<Path>)
    requires p <= q && Inside(p, root, holes)
    ensures Inside(q, root, holes)
  {
    forall h | h in holes ensures !Comparable(q, h) {
      CommonAddress(p, h, q);
    }
  }

  lemma CanonicalIffMaximal(q: Path, root: Path, holes: seq<Path>)
    requires Block(root) && Blocks(holes)
    ensures Canonical(q, root, holes) <==> Block(q) && Maximal(q, root, holes)
  {
    if Block(q) {
      InsideIffAllWanted(q, root, holes);
      forall k | 1 <= k < |q| ensures Inside(q[..k], root, holes) <==> AllWanted(q[..k], root, holes) {
        InsideIffAllWanted(q[..k], root, holes);
      }
      if Maximal(q, root, holes) {
        forall k | 1 <= k < |q| ensures !Inside(q[..k], root, holes) {
          MaximalAncestors(q, k, root, holes);
        }
      }
    }
  }

  /** No strict ancestor of a maximal block is inside. */
  lemma MaximalAncestors(q: Path, k: nat, root: Path, holes: seq<Path>)
    requires Maximal(q, root, holes) && k < |q|
    ensures !Inside(q[..k], root, holes)
  {
    if Inside(q[..k], root, holes) && q != root {
      InsideBelow(q[..k], q[..|q| - 1], root, holes);
    }
  }

  /** Every block that is inside lies in a maximal one. */
  lemma MaximalAbove(q: Path, root: Path, holes: seq<Path>) returns (m: Path)
    requires Inside(q, root, holes)
    ensures m <= q && Maximal(m, root, holes)
  {
    m := q;
    while m != root && Inside(m[..|m| - 1], root, holes)
      invariant m <= q && Inside(m, root, holes)
      decreases |m|
    {
      m := m[..|m| - 1];
    }
  }

  // ---------------------------------------------------------------------------
  // Cutting one hole
  // ---------------------------------------------------------------------------

  lemma {:induction false} SiblingsMembers(p: Path, hole: Path, q: Path)
    requires p <= hole
    ensures q in Siblings(p, hole) <==>
            |p| < |q| <= |hole| && q[..|q| - 1] == hole[..|q| - 1] && q[|q| - 1] != hole[|q| - 1]
    decreases |hole| - |p|
  {
    if |p| < |hole| {
      var first := p + [!hole[|p|]];
      SiblingsMembers(hole[..|p| + 1], hole, q);
      if |q| == |p| + 1 && q[..|q| - 1] == hole[..|q| - 1] && q[|q| - 1] != hole[|q| - 1] {
        assert q == first;
      }
    }
  }

  lemma {:induction false} CutAllMembers(blocks: seq<Path>, hole: Path, q: Path)
    ensures q in CutAll(blocks, hole) <==> exists p :: p in blocks && q in CutOne(p, hole)
  {
    if blocks != [] {
      var front, last := blocks[..|blocks| - 1], blocks[|blocks| - 1];
      CutAllMembers(front, hole, q);
      assert blocks == front + [last];
    }
  }

  /** The pieces of p are blocks below p that avoid the hole, next to its path. */
  lemma CutOneMembers(p: Path, hole: Path, q: Path)
    ensures q in CutOne(p, hole) <==>
            p <= q && !Comparable(q, hole) && (q == p || q[..|q| - 1] <= hole)
  {
    if p <= hole {
      SiblingsMembers(p, hole, q);
      if p <= q && !Comparable(q, hole) && |q| > 0 && q[..|q| - 1] <= hole {
        assert q == q[..|q| - 1] + [q[|q| - 1]];
        assert |q| <= |hole|;
      }
    }
  }

  lemma InsideMore(q: Path, root: Path, holes: seq<Path>, hole: Path)
    ensures Inside(q, root, holes + [hole]) <==> Inside(q, root, holes) && !Comparable(q, hole)
  {
    assert hole in holes + [hole];
    assert forall h :: h in holes ==> h in holes + [hole];
  }

  lemma CutSound(p: Path, q: Path, root: Path, holes: seq<Path>, hole: Path)
    requires Maximal(p, root, holes) && q in CutOne(p, hole)
    ensures Maximal(q, root, holes + [hole])
  {
    CutOneMembers(p, hole, q);
    InsideBelow(p, q, root, holes);
    InsideMore(q, root, holes, hole);
    if q != root {
      InsideMore(q[..|q| - 1], root, holes, hole);
    }
  }

  lemma CutComplete(q: Path, root: Path, holes: seq<Path>, hole: Path) returns (p: Path)
    requires Maximal(q, root, holes + [hole])
    ensures Maximal(p, root, holes) && q in CutOne(p, hole)
  {
    p := q;
    InsideMore(q, root, holes, hole);
    if q != root {
      var parent := q[..|q| - 1];
      InsideMore(parent, root, holes, hole);
      if Inside(parent, root, holes) {
        p := MaximalAbove(parent, root, holes);
        assert hole <= parent ==> hole <= q;
      }
    }
    CutOneMembers(p, hole, q);
  }

  /**
   The pieces cut from one block are exactly the maximal blocks of wanted
   addresses, whatever the order of the holes.
   */
  lemma {:induction false} RemainderMaximal(root: Path, holes: seq<Path>, q: Path)
    ensures q in Remainder(root, holes) <==> Maximal(q, root, holes)
    decreases |holes|
  {
    if holes != [] {
      var front, hole := holes[..|holes| - 1], holes[|holes| - 1];
      assert holes == front + [hole];
      CutAllMembers(Remainder(root, front), hole, q);
      forall p ensures p in Remainder(root, front) <==> Maximal(p, root, front) {
        RemainderMaximal(root, front, p);
      }
      if q in Remainder(root, holes) {
        var p :| p in Remainder(root, front) && q in CutOne(p, hole);
        CutSound(p, q, root, front, hole);
      } else if Maximal(q, root, holes) {
        var p := CutComplete(q, root, front, hole);
      }
    } else {
      assert Maximal(q, root, holes) <==> q == root;
    }
  }

  // ---------------------------------------------------------------------------
  // The cut is exact, disjoint, canonical, minimal and independent of order
  // ---------------------------------------------------------------------------

  lemma MaximalIsBlock(q: Path, root: Path, holes: seq<Path>)
    requires Block(root) && Blocks(holes) && Maximal(q, root, holes)
    ensures Block(q)
  {
    if q != root {
      var parent := q[..|q| - 1];
      var h :| h in holes && Comparable(parent, h);
      assert h <= parent ==> h <= q;
      assert parent <= h && h[0] == q[0];
      assert parent == h ==> h <= q;
    }
  }

  /** The pieces are exactly the maximal blocks that hold only wanted addresses. */
  lemma RemainderCanonical(root: Path, holes: seq<Path>, q: Path)
    requires Block(root) && Blocks(holes)
    ensures q in Remainder(root, holes) <==> Canonical(q, root, holes)
  {
    RemainderMaximal(root, holes, q);
    CanonicalIffMaximal(q, root, holes);
    if Maximal(q, root, holes) {
      MaximalIsBlock(q, root, holes);
    }
  }

  /** An address is in some piece exactly when it is in root and in no hole. */
  lemma RemainderExact(root: Path, holes: seq<Path>, a: Path)
    requires Block(root) && Blocks(holes) && Leaf(a)
    ensures InSome(a, Remainder(root, holes)) <==> Wanted(a, root, holes)
  {
    if InSome(a, Remainder(root, holes)) {
      var q :| q in Remainder(root, holes) && q <= a;
      RemainderCanonical(root, holes, q);
    } else if Inside(a, root, holes) {
      var q := MaximalAbove(a, root, holes);
      RemainderMaximal(root, holes, q);
    } else {
      var b := UnwantedWitness(a, root, holes);
      assert b == a;
    }
  }

  lemma {:induction false} SiblingsDisjoint(p: Path, hole: Path)
    requires p <= hole
    ensures Disjoint(Siblings(p, hole))
    decreases |hole| - |p|
  {
    if |p| < |hole| {
      var rest := Siblings(hole[..|p| + 1], hole);
      SiblingsDisjoint(hole[..|p| + 1], hole);
      forall j | 0 <= j < |rest| ensures !Comparable(p + [!hole[|p|]], rest[j]) {
        SiblingsMembers(hole[..|p| + 1], hole, rest[j]);
        assert rest[j][|p|] == rest[j][..|rest[j]| - 1][|p|] == hole[|p|];
      }
    }
  }

  /** Blocks below two disjoint blocks are disjoint. */
  lemma DisjointBelow(p: Path, p': Path, q: Path, q': Path)
    requires p <= q && p' <= q' && !Comparable(p, p')
    ensures !Comparable(q, q')
  {
    CommonAddress(p, p', q);
    CommonAddress(p, p', q');
    assert q <= q' ==> p <= q';
    assert q' <= q ==> p' <= q;
  }

  lemma {:induction false} CutAllDisjoint(blocks: seq<Path>, hole: Path)
    requires Disjoint(blocks)
    ensures Disjoint(CutAll(blocks, hole))
  {
    if blocks != [] {
      var front, last := blocks[..|blocks| - 1], blocks[|blocks| - 1];
      var done, new_ := CutAll(front, hole), CutOne(last, hole);
      CutAllDisjoint(front, hole);
      if last <= hole {
        SiblingsDisjoint(last, hole);
      }
      forall q, q' | q in done && q' in new_ ensures !Comparable(q, q') {
        CutAllMembers(front, hole, q);
        var p :| p in front && q in CutOne(p, hole);
        CutOneMembers(p, hole, q);
        CutOneMembers(last, hole, q');
        DisjointBelow(p, last, q, q');
      }
    }
  }

  /** No address is in two pieces. */
  lemma {:induction false} RemainderDisjoint(root: Path, holes: seq<Path>)
    ensures Disjoint(Remainder(root, holes))
    decreases |holes|
  {
    if holes != [] {
      RemainderDisjoint(root, holes[..|holes| - 1]);
      CutAllDisjoint(Remainder(root, holes[..|holes| - 1]), holes[|holes| - 1]);
    }
  }

  /** Distinct numbers below n are at most n many. */
  lemma {:induction false} Pigeonhole(f: seq<nat>, n: nat)
    requires forall i :: 0 <= i < |f| ==> f[i] < n
    requires forall i, j :: 0 <= i < j < |f| ==> f[i] != f[j]
    ensures |f| <= n
  {
    if f != [] {
      assert f[0] < n;
      if exists k :: 0 <= k < |f| && f[k] == n - 1 {
        var k :| 0 <= k < |f| && f[k] == n - 1;
        Pigeonhole(f[..k] + f[k + 1..], n - 1);
      } else {
        Pigeonhole(f, n - 1);
      }
    }
  }

  /** No list of blocks with the same addresses is shorter than the list of pieces. */
  lemma RemainderMinimal(root: Path, holes: seq<Path>, cover: seq<Path>)
    requires Block(root) && Blocks(holes) && Blocks(cover)
    requires forall a :: Leaf(a) ==> (InSome(a, cover) <==> Wanted(a, root, holes))
    ensures |Remainder(root, holes)| <= |cover|
  {
    var pieces := Remainder(root, holes);
    RemainderDisjoint(root, holes);
    var f: seq<nat> := [];
    while |f| < |pieces|
      invariant |f| <= |pieces|
      invariant forall i :: 0 <= i < |f| ==> f[i] < |cover| && pieces[i] <= cover[f[i]]
    {
      var j := CoverInside(root, holes, cover, pieces[|f|]);
      f := f + [j];
    }
    forall i, j | 0 <= i < j < |f| ensures f[i] != f[j] {
      CommonAddress(pieces[i], pieces[j], cover[f[i]]);
    }
    Pigeonhole(f, |cover|);
  }

  /** Every piece contains some block of any other cover of the same addresses. */
  lemma CoverInside(root: Path, holes: seq<Path>, cover: seq<Path>, piece: Path) returns (j: nat)
    requires Block(root) && Blocks(holes) && Blocks(cover)
    requires forall a :: Leaf(a) ==> (InSome(a, cover) <==> Wanted(a, root, holes))
    requires piece in Remainder(root, holes)
    ensures j < |cover| && piece <= cover[j]
  {
    RemainderCanonical(root, holes, piece);
    var a := FirstLeaf(piece);
    assert Wanted(a, root, holes);
    var c :| c in cover && c <= a;
    j :| 0 <= j < |cover| && cover[j] == c;
    CommonAddress(piece, c, a);
    assert AllWanted(c, root, holes) by {
      forall b | Leaf(b) && c <= b ensures Wanted(b, root, holes) {
        assert InSome(b, cover);
      }
    }
    var k := if |c| < |piece| then |c| else |piece|;
    assert k == |c| ==> c == piece[..k];
  }

  /** The pieces depend on the set of holes alone, not on their order or repetition. */
  lemma RemainderOrder(root: Path, holes: seq<Path>, holes': seq<Path>)
    requires forall h :: h in holes <==> h in holes'
    ensures multiset(Remainder(root, holes)) == multiset(Remainder(root, holes'))
  {
    RemainderDisjoint(root, holes);
    RemainderDisjoint(root, holes');
    forall q ensures q in Remainder(root, holes) <==> q in Remainder(root, holes') {
      RemainderMaximal(root, holes, q);
      RemainderMaximal(root, holes', q);
      assert Maximal(q, root, holes) <==> Maximal(q, root, holes');
    }
    forall q ensures multiset(Remainder(root, holes))[q] == multiset(Remainder(root, holes'))[q] {
      DisjointOnce(Remainder(root, holes), q);
      DisjointOnce(Remainder(root, holes'), q);
    }
  }

  lemma {:induction false} DisjointOnce(blocks: seq<Path>, q: Path)
    requires Disjoint(blocks)
    ensures multiset(blocks)[q] == if q in blocks then 1 else 0
  {
    if blocks != [] {
      var front, last := blocks[..|blocks| - 1], blocks[|blocks| - 1];
      assert blocks == front + [last];
      DisjointOnce(front, q);
    }
  }
}
