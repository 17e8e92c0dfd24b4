/**
 Merkle inclusion proofs (types/src/merkle_proof.rs) over the trees and audit paths of
 section 2.1 and section 2.1.1 of RFC 6962.

 Hashing is a parameter. Soundness is stated without assuming that hashes never collide:
 whenever a proof verifies for something that is not there, the lemmas construct a collision.
 */
module MerkleProofs {
  import opened Wrappers

  type Bytes = seq<bv8>

  /** The hash functions of a tree: of nothing, of a leaf, and of two children. */
  datatype Hasher = Hasher(empty: Bytes, leaf: Bytes -> Bytes, inner: (Bytes, Bytes) -> Bytes)

  // ---- the reference: RFC 6962 ---------------------------------------------------------------

  ghost predicate IsPowerOfTwo(k: nat)
    decreases k
  {
    k == 1 || (k > 1 && k % 2 == 0 && IsPowerOfTwo(k / 2))
  }

  /** `k` is the largest power of two smaller than `n`. */
  ghost predicate IsSplit(n: nat, k: nat) { IsPowerOfTwo(k) && k < n <= 2 * k }

  ghost function RfcSplit(n: nat): (k: nat)
    requires 2 <= n
    ensures 0 < k < n
  {
    assert IsSplit(n, Split(n)) by { SplitIsPower(n); }
    var k: nat :| IsSplit(n, k);
    k
  }

  /** The root hash of a list of leaves: MTH(D[n]) of section 2.1. */
  ghost function Root(hs: Hasher, leaves: seq<Bytes>): Bytes
    decreases |leaves|
  {
    if |leaves| == 0 then hs.empty
    else if |leaves| == 1 then hs.leaf(leaves[0])
    else
      var k := RfcSplit(|leaves|);
      hs.inner(Root(hs, leaves[..k]), Root(hs, leaves[k..]))
  }

  /** The audit path of a leaf, nearest sibling first: PATH(m, D[n]) of section 2.1.1. */
  ghost function Path(hs: Hasher, leaves: seq<Bytes>, index: nat): seq<Bytes>
    requires index < |leaves|
    decreases |leaves|
  {
    if |leaves| == 1 then []
    else
      var k := RfcSplit(|leaves|);
      if index < k then Path(hs, leaves[..k], index) + [Root(hs, leaves[k..])]
      else Path(hs, leaves[k..], index - k) + [Root(hs, leaves[..k])]
  }

  // ---- where a tree is split -----------------------------------------------------------------

  /** The smallest power of two that is at least `n`. */
  function NextPowerOfTwo(n: nat): nat { if n <= 1 then 1 else 2 * NextPowerOfTwo((n + 1) / 2) }

  function Split(n: nat): (k: nat)
    ensures 2 <= n ==> 0 < k < n
    ensures n < 2 ==> k == 0
  {
    if 2 <= n then NextPowerBounds(n); NextPowerOfTwo(n) / 2 else NextPowerOfTwo(n) / 2
  }

  lemma {:induction false} NextPowerBounds(n: nat)
    requires 2 <= n
    ensures 2 <= NextPowerOfTwo(n) && NextPowerOfTwo(n) % 2 == 0 && n <= NextPowerOfTwo(n) < 2 * n
  {
    if 2 < n { NextPowerBounds((n + 1) / 2); }
  }

  lemma {:induction false} NextPowerIsPower(n: nat)
    ensures IsPowerOfTwo(NextPowerOfTwo(n))
  {
    if n > 1 { NextPowerIsPower((n + 1) / 2); }
  }

  lemma SplitIsPower(n: nat)
    requires 2 <= n
    ensures IsSplit(n, Split(n))
  {
    NextPowerBounds(n);
    NextPowerIsPower(n);
  }

  lemma {:induction false} PowersApart(a: nat, b: nat)
    requires IsPowerOfTwo(a) && IsPowerOfTwo(b) && a < b
    ensures 2 * a <= b
    decreases b
  {
    if a > 1 { PowersApart(a / 2, b / 2); }
  }

  /** There is only one split point, so the code's choice is the one of RFC 6962. */
  lemma SplitIsRfc(n: nat)
    requires 2 <= n
    ensures Split(n) == RfcSplit(n) && IsSplit(n, RfcSplit(n))
    ensures forall p: nat :: IsPowerOfTwo(p) && p < n ==> p <= RfcSplit(n)
  {
    SplitIsPower(n);
    var k := RfcSplit(n);
    assert IsSplit(n, k);
    forall p: nat | IsPowerOfTwo(p) && p < n ensures p <= k {
      if k < p { PowersApart(k, p); }
    }
    OneSplit(n, k, Split(n));
  }

  lemma OneSplit(n: nat, a: nat, b: nat)
    requires IsSplit(n, a) && IsSplit(n, b)
    ensures a == b
  {
    if a < b {
      PowersApart(a, b);
    } else if b < a {
      PowersApart(b, a);
    }
  }

  /** The height of a tree: the number of halvings until one leaf is left, rounded up. */
  function CeilLog2(n: nat): nat { if n <= 1 then 0 else 1 + CeilLog2((n + 1) / 2) }

  lemma {:induction false} LogMonotone(m: nat, n: nat)
    requires m <= n
    ensures CeilLog2(m) <= CeilLog2(n)
  {
    if m > 1 { LogMonotone((m + 1) / 2, (n + 1) / 2); }
  }

  lemma {:induction false} LogOfPower(k: nat)
    requires IsPowerOfTwo(k)
    ensures CeilLog2(2 * k) == CeilLog2(k) + 1
    ensures forall n :: k < n <= 2 * k ==> CeilLog2(n) == CeilLog2(2 * k)
  {
    if k > 1 {
      LogOfPower(k / 2);
      forall n | k < n <= 2 * k ensures CeilLog2(n) == CeilLog2(2 * k) {
        assert k / 2 < (n + 1) / 2 <= 2 * (k / 2);
      }
    }
  }

  // ---- proofs --------------------------------------------------------------------------------

  datatype MerkleProof = MerkleProof(index: nat, total: nat, leafHash: Bytes, aunts: seq<Bytes>)

  datatype Error =
    | IndexOutOfRange(index: nat, len: nat)
    | DifferentLeaf
    | ExtraAunts
    | MissingAunts
    | RootMismatch

  /** Recomputes a root from a leaf hash and the siblings on its way up. */
  function SubtreeRootFromAunts(hs: Hasher, index: nat, total: nat, leaf: Bytes, aunts: seq<Bytes>)
    : Result<Bytes, Error>
    decreases |aunts|
  {
    if total == 1 then
      if aunts != [] then Err(ExtraAunts) else Ok(leaf)
    else
      var split := Split(total);
      if aunts == [] then Err(MissingAunts)
      else
        var sibling, rest := aunts[|aunts| - 1], aunts[..|aunts| - 1];
        if index < split then
          match SubtreeRootFromAunts(hs, index, split, leaf, rest)
          case Ok(left) => Ok(hs.inner(left, sibling))
          case Err(e) => Err(e)
        else
          match SubtreeRootFromAunts(hs, index - split, total - split, leaf, rest)
          case Ok(right) => Ok(hs.inner(sibling, right))
          case Err(e) => Err(e)
  }

  /** How many turns it takes from the root to where an index leads. */
  ghost function Depth(index: nat, total: nat): nat
    requires total > 0
    decreases total
  {
    if total == 1 then 0
    else
      var split := Split(total);
      1 + if index < split then Depth(index, split) else Depth(index - split, total - split)
  }

  /** A root is recomputed exactly from one aunt per turn; with more or fewer the proof is malformed. */
  lemma {:induction false} AuntsMatchDepth(hs: Hasher, index: nat, total: nat, leaf: Bytes, aunts: seq<Bytes>)
    requires total > 0
    ensures var r := SubtreeRootFromAunts(hs, index, total, leaf, aunts);
            && (r.Ok? <==> |aunts| == Depth(index, total))
            && (r == Err(MissingAunts) <==> |aunts| < Depth(index, total))
            && (r == Err(ExtraAunts) <==> |aunts| > Depth(index, total))
    decreases |aunts|
  {
    if total > 1 && aunts != [] {
      var split, rest := Split(total), aunts[..|aunts| - 1];
      if index < split {
        AuntsMatchDepth(hs, index, split, leaf, rest);
      } else {
        AuntsMatchDepth(hs, index - split, total - split, leaf, rest);
      }
    }
  }

  function Verify(hs: Hasher, p: MerkleProof, leaf: Bytes, root: Bytes): Result<(), Error> {
    if hs.leaf(leaf) != p.leafHash then Err(DifferentLeaf)
    else
      match SubtreeRootFromAunts(hs, p.index, p.total, hs.leaf(leaf), p.aunts)
      case Err(e) => Err(e)
      case Ok(computed) => if computed != root then Err(RootMismatch) else Ok(())
  }

  /**
   What each answer of `verify` means: another leaf than the proof's, an aunt too few, an aunt too
   many, or one aunt per turn that recompute another root, or this one.
   */
  lemma VerifyOutcome(hs: Hasher, p: MerkleProof, leaf: Bytes, root: Bytes)
    ensures var r := Verify(hs, p, leaf, root);
            if hs.leaf(leaf) != p.leafHash then r == Err(DifferentLeaf)
            else if p.total == 0 || |p.aunts| < Depth(p.index, p.total) then r == Err(MissingAunts)
            else if |p.aunts| > Depth(p.index, p.total) then r == Err(ExtraAunts)
            else && (r == Ok(()) || r == Err(RootMismatch))
                 && (r == Ok(()) <==> SubtreeRootFromAunts(hs, p.index, p.total, p.leafHash, p.aunts) == Ok(root))
  {
    if p.total > 0 {
      AuntsMatchDepth(hs, p.index, p.total, hs.leaf(leaf), p.aunts);
    } else {
      ZeroTotalFails(hs, p.index, hs.leaf(leaf), p.aunts);
    }
  }

  /** The proof of leaf `index`, as `New` builds it. */
  ghost function ProofOf(hs: Hasher, leaves: seq<Bytes>, index: nat): MerkleProof
    requires index < |leaves|
  {
    MerkleProof(index, |leaves|, hs.leaf(leaves[index]), Path(hs, leaves, index))
  }

  /** The vector that collects the siblings. */
  class Aunts {
    var items: seq<Bytes>

    constructor ()
      ensures items == []
    {
      items := [];
    }
  }

  /** The audit path within a subtree that starts at leaf `first`; empty if the leaf is elsewhere. */
  ghost function PathWithin(hs: Hasher, first: nat, leafToProve: nat, leaves: seq<Bytes>): seq<Bytes> {
    if first <= leafToProve < first + |leaves| then Path(hs, leaves, leafToProve - first) else []
  }

  lemma RootHalves(hs: Hasher, leaves: seq<Bytes>)
    requires 2 <= |leaves|
    ensures var k := Split(|leaves|);
            Root(hs, leaves) == hs.inner(Root(hs, leaves[..k]), Root(hs, leaves[k..]))
  {
    SplitIsRfc(|leaves|);
  }

  lemma PathLeft(hs: Hasher, first: nat, leafToProve: nat, leaves: seq<Bytes>, k: nat)
    requires 2 <= |leaves| && k == Split(|leaves|) && first <= leafToProve < first + k
    ensures PathWithin(hs, first, leafToProve, leaves)
            == PathWithin(hs, first, leafToProve, leaves[..k]) + [Root(hs, leaves[k..])]
    ensures PathWithin(hs, first + k, leafToProve, leaves[k..]) == []
  {
    SplitIsRfc(|leaves|);
  }

  lemma AppendedLeft(before: seq<Bytes>, inLeft: seq<Bytes>, inRight: seq<Bytes>, sibling: seq<Bytes>)
    requires inRight == []
    ensures ((before + inLeft) + inRight) + sibling == before + (inLeft + sibling)
  {
  }

  lemma AppendedRight(before: seq<Bytes>, inLeft: seq<Bytes>, inRight: seq<Bytes>, sibling: seq<Bytes>)
    requires inLeft == []
    ensures ((before + inLeft) + inRight) + sibling == before + (inRight + sibling)
  {
  }

  lemma PathRight(hs: Hasher, first: nat, leafToProve: nat, leaves: seq<Bytes>, k: nat)
    requires 2 <= |leaves| && k == Split(|leaves|) && first + k <= leafToProve < first + |leaves|
    ensures PathWithin(hs, first, leafToProve, leaves)
            == PathWithin(hs, first + k, leafToProve, leaves[k..]) + [Root(hs, leaves[..k])]
    ensures PathWithin(hs, first, leafToProve, leaves[..k]) == []
  {
    SplitIsRfc(|leaves|);
  }

  /**
   Hashes a subtree and, if the leaf to prove lies in it, pushes the leaf's audit path within
   that subtree.
   */
  method HashLeavesCollectingAunts(hs: Hasher, firstLeafIndex: nat, leafToProve: nat, leaves: seq<Bytes>, aunts: Aunts)
    returns (root: Bytes)
    modifies aunts
    ensures root == Root(hs, leaves)
    ensures aunts.items == old(aunts.items) + PathWithin(hs, firstLeafIndex, leafToProve, leaves)
    decreases |leaves|
  {
    var total := |leaves|;
    if total == 0 {
      return hs.empty;
    } else if total == 1 {
      return hs.leaf(leaves[0]);
    }
    var split := Split(total);
    RootHalves(hs, leaves);
    var left := HashLeavesCollectingAunts(hs, firstLeafIndex, leafToProve, leaves[..split], aunts);
    var right := HashLeavesCollectingAunts(hs, firstLeafIndex + split, leafToProve, leaves[split..], aunts);
    ghost var inLeft := PathWithin(hs, firstLeafIndex, leafToProve, leaves[..split]);
    ghost var inRight := PathWithin(hs, firstLeafIndex + split, leafToProve, leaves[split..]);
    if firstLeafIndex <= leafToProve < firstLeafIndex + total {
      if leafToProve < firstLeafIndex + split {
        PathLeft(hs, firstLeafIndex, leafToProve, leaves, split);
        AppendedLeft(old(aunts.items), inLeft, inRight, [right]);
        aunts.items := aunts.items + [right];
      } else {
        PathRight(hs, firstLeafIndex, leafToProve, leaves, split);
        AppendedRight(old(aunts.items), inLeft, inRight, [left]);
        aunts.items := aunts.items + [left];
      }
    }
    root := hs.inner(left, right);
  }

  /**
   Builds a proof: fails only for an index out of range; otherwise returns the root of RFC 6962
   and a proof with at most ceil(log2 n) siblings that verifies against it.
   */
  method New(hs: Hasher, leafToProve: nat, leaves: seq<Bytes>) returns (r: Result<(MerkleProof, Bytes), Error>)
    ensures leafToProve >= |leaves| ==> r == Err(IndexOutOfRange(leafToProve, |leaves|))
    ensures leafToProve < |leaves| ==>
              && r == Ok((ProofOf(hs, leaves, leafToProve), Root(hs, leaves)))
              && Verify(hs, r.value.0, leaves[leafToProve], r.value.1) == Ok(())
              && |r.value.0.aunts| <= CeilLog2(|leaves|)
  {
    if leafToProve >= |leaves| {
      return Err(IndexOutOfRange(leafToProve, |leaves|));
    }
    var aunts := new Aunts();
    var root := HashLeavesCollectingAunts(hs, 0, leafToProve, leaves, aunts);
    PathVerifies(hs, leaves, leafToProve);
    PathLength(hs, leaves, leafToProve);
    assert aunts.items == Path(hs, leaves, leafToProve);
    r := Ok((MerkleProof(leafToProve, |leaves|, hs.leaf(leaves[leafToProve]), aunts.items), root));
  }

  // ---- completeness --------------------------------------------------------------------------

  /** The audit path of a leaf recomputes the root. */
  lemma {:induction false} PathVerifies(hs: Hasher, leaves: seq<Bytes>, index: nat)
    requires index < |leaves|
    ensures SubtreeRootFromAunts(hs, index, |leaves|, hs.leaf(leaves[index]), Path(hs, leaves, index))
            == Ok(Root(hs, leaves))
    decreases |leaves|
  {
    if |leaves| > 1 {
      var k := RfcSplit(|leaves|);
      SplitIsRfc(|leaves|);
      var path := Path(hs, leaves, index);
      if index < k {
        PathVerifies(hs, leaves[..k], index);
        assert path[..|path| - 1] == Path(hs, leaves[..k], index);
      } else {
        PathVerifies(hs, leaves[k..], index - k);
        assert path[..|path| - 1] == Path(hs, leaves[k..], index - k);
      }
    }
  }

  lemma {:induction false} PathLength(hs: Hasher, leaves: seq<Bytes>, index: nat)
    requires index < |leaves|
    ensures |Path(hs, leaves, index)| <= CeilLog2(|leaves|)
    decreases |leaves|
  {
    if |leaves| > 1 {
      var k := RfcSplit(|leaves|);
      SplitIsRfc(|leaves|);
      LogOfPower(k);
      LogMonotone(|leaves| - k, k);
      if index < k {
        PathLength(hs, leaves[..k], index);
      } else {
        PathLength(hs, leaves[k..], index - k);
      }
    }
  }

  // ---- soundness -----------------------------------------------------------------------------

  /** Two different things with the same hash. */
  datatype Collision =
    | TwoLeaves(a: Bytes, b: Bytes)
    | TwoInners(l: Bytes, r: Bytes, l': Bytes, r': Bytes)
    | LeafAndInner(a: Bytes, l: Bytes, r: Bytes)
    | EmptyAndLeaf(a: Bytes)
    | EmptyAndInner(l: Bytes, r: Bytes)

  ghost predicate IsCollision(hs: Hasher, c: Collision) {
    match c
    case TwoLeaves(a, b) => a != b && hs.leaf(a) == hs.leaf(b)
    case TwoInners(l, r, l', r') => (l, r) != (l', r') && hs.inner(l, r) == hs.inner(l', r')
    case LeafAndInner(a, l, r) => hs.leaf(a) == hs.inner(l, r)
    case EmptyAndLeaf(a) => hs.empty == hs.leaf(a)
    case EmptyAndInner(l, r) => hs.empty == hs.inner(l, r)
  }

  /** Nothing checks the index against the total: too large an index means the last leaf. */
  lemma {:induction false} IndexClamped(hs: Hasher, index: nat, total: nat, leaf: Bytes, aunts: seq<Bytes>)
    requires 0 < total <= index
    ensures SubtreeRootFromAunts(hs, index, total, leaf, aunts)
            == SubtreeRootFromAunts(hs, total - 1, total, leaf, aunts)
    decreases |aunts|
  {
    if total > 1 && aunts != [] {
      var split := Split(total);
      IndexClamped(hs, index - split, total - split, leaf, aunts[..|aunts| - 1]);
    }
  }

  /** Without a total nothing is ever recomputed. */
  lemma {:induction false} ZeroTotalFails(hs: Hasher, index: nat, leaf: Bytes, aunts: seq<Bytes>)
    ensures SubtreeRootFromAunts(hs, index, 0, leaf, aunts) == Err(MissingAunts)
    decreases |aunts|
  {
    if aunts != [] { ZeroTotalFails(hs, index, leaf, aunts[..|aunts| - 1]); }
  }

  /**
   Where a proof with this index and total leads in a tree of `n` leaves: the turns that the index
   takes at the splits of `total` are taken at the splits of `n`.
   */
  ghost function Turned(index: nat, total: nat, n: nat): (i: nat)
    ensures 0 < n ==> i < n
    decreases n
  {
    if total <= 1 || n <= 1 then 0
    else
      var split, k := Split(total), RfcSplit(n);
      if index < split then Turned(index, split, k) else k + Turned(index - split, total - split, n - k)
  }

  /** With the right total that is the index, or the last leaf if the index is out of range. */
  lemma {:induction false} TurnedInPlace(index: nat, n: nat)
    requires 0 < n
    ensures Turned(index, n, n) == if index < n then index else n - 1
    decreases n
  {
    if n > 1 {
      SplitIsRfc(n);
      var k := Split(n);
      if index < k { TurnedInPlace(index, k); } else { TurnedInPlace(index - k, n - k); }
    }
  }

  /**
   Whatever index, total and siblings a proof carries: if it recomputes the root of a list of
   leaves, then the leaf is the one where its index and total lead - or here is a collision.
   */
  lemma {:induction false} RecomputedRootPinsLeaf(hs: Hasher, index: nat, total: nat, x: Bytes,
                                                  aunts: seq<Bytes>, leaves: seq<Bytes>)
    returns (c: Option<Collision>)
    requires SubtreeRootFromAunts(hs, index, total, hs.leaf(x), aunts) == Ok(Root(hs, leaves))
    ensures c.None? ==> leaves != [] && x == leaves[Turned(index, total, |leaves|)]
    ensures c.Some? ==> IsCollision(hs, c.value)
    decreases |leaves|, 1
  {
    ZeroTotalFails(hs, index, hs.leaf(x), aunts);
    if total == 1 {
      c := LeafIsRoot(hs, x, leaves);
    } else if index < Split(total) {
      c := RootPinsLeft(hs, index, total, x, aunts, leaves);
    } else {
      c := RootPinsRight(hs, index, total, x, aunts, leaves);
    }
  }

  lemma {:induction false} RootPinsLeft(hs: Hasher, index: nat, total: nat, x: Bytes,
                                        aunts: seq<Bytes>, leaves: seq<Bytes>)
    returns (c: Option<Collision>)
    requires 1 < total && index < Split(total)
    requires SubtreeRootFromAunts(hs, index, total, hs.leaf(x), aunts) == Ok(Root(hs, leaves))
    ensures c.None? ==> leaves != [] && x == leaves[Turned(index, total, |leaves|)]
    ensures c.Some? ==> IsCollision(hs, c.value)
    decreases |leaves|, 0
  {
    var sibling, rest := aunts[|aunts| - 1], aunts[..|aunts| - 1];
    var left := SubtreeRootFromAunts(hs, index, Split(total), hs.leaf(x), rest).value;
    c := DifferentChildren(hs, left, sibling, leaves);
    if c.None? {
      c := RecomputedRootPinsLeaf(hs, index, Split(total), x, rest, leaves[..RfcSplit(|leaves|)]);
    }
  }

  lemma {:induction false} RootPinsRight(hs: Hasher, index: nat, total: nat, x: Bytes,
                                         aunts: seq<Bytes>, leaves: seq<Bytes>)
    returns (c: Option<Collision>)
    requires 1 < total && Split(total) <= index
    requires SubtreeRootFromAunts(hs, index, total, hs.leaf(x), aunts) == Ok(Root(hs, leaves))
    ensures c.None? ==> leaves != [] && x == leaves[Turned(index, total, |leaves|)]
    ensures c.Some? ==> IsCollision(hs, c.value)
    decreases |leaves|, 0
  {
    var split, sibling, rest := Split(total), aunts[|aunts| - 1], aunts[..|aunts| - 1];
    var right := SubtreeRootFromAunts(hs, index - split, total - split, hs.leaf(x), rest).value;
    c := DifferentChildren(hs, sibling, right, leaves);
    if c.None? {
      c := RecomputedRootPinsLeaf(hs, index - split, total - split, x, rest, leaves[RfcSplit(|leaves|)..]);
    }
  }

  /** A leaf hash is the root of that leaf alone. */
  lemma LeafIsRoot(hs: Hasher, x: Bytes, leaves: seq<Bytes>) returns (c: Option<Collision>)
    requires hs.leaf(x) == Root(hs, leaves)
    ensures c.Some? ==> IsCollision(hs, c.value)
    ensures c.None? ==> leaves == [x]
  {
    c := None;
    if |leaves| == 0 {
      c := Some(EmptyAndLeaf(x));
    } else if |leaves| == 1 {
      if x != leaves[0] { c := Some(TwoLeaves(x, leaves[0])); }
    } else {
      var k := RfcSplit(|leaves|);
      c := Some(LeafAndInner(x, Root(hs, leaves[..k]), Root(hs, leaves[k..])));
    }
  }

  /** An inner hash equal to the root of `leaves` is the hash of the roots of its two halves. */
  lemma DifferentChildren(hs: Hasher, l: Bytes, r: Bytes, leaves: seq<Bytes>) returns (c: Option<Collision>)
    requires hs.inner(l, r) == Root(hs, leaves)
    ensures c.Some? ==> IsCollision(hs, c.value)
    ensures c.None? ==> |leaves| >= 2 && l == Root(hs, leaves[..RfcSplit(|leaves|)])
                        && r == Root(hs, leaves[RfcSplit(|leaves|)..])
  {
    c := None;
    if |leaves| == 0 {
      c := Some(EmptyAndInner(l, r));
    } else if |leaves| == 1 {
      c := Some(LeafAndInner(leaves[0], l, r));
    } else {
      var k := RfcSplit(|leaves|);
      var l', r' := Root(hs, leaves[..k]), Root(hs, leaves[k..]);
      if (l, r) != (l', r') {
        c := Some(TwoInners(l, r, l', r'));
      }
    }
  }

  /**
   Soundness of `verify`: the leaf is the one where index and total lead. So it is always one of
   the leaves, and if these are all different it is the one at the claimed index if and only if
   index and total lead there, as they do with the right total.
   */
  lemma VerifiedLeafIsMember(hs: Hasher, p: MerkleProof, leaf: Bytes, leaves: seq<Bytes>)
    returns (c: Option<Collision>)
    requires Verify(hs, p, leaf, Root(hs, leaves)) == Ok(())
    ensures c.None? ==> leaf in leaves && leaf == leaves[Turned(p.index, p.total, |leaves|)]
    ensures c.None? && NoDuplicates(leaves) && p.index < |leaves| ==>
              (leaf == leaves[p.index] <==> Turned(p.index, p.total, |leaves|) == p.index)
    ensures c.None? && p.total == |leaves| && p.index < p.total ==> leaf == leaves[p.index]
    ensures c.Some? ==> IsCollision(hs, c.value)
  {
    c := RecomputedRootPinsLeaf(hs, p.index, p.total, leaf, p.aunts, leaves);
    if c.None? { TurnedInPlace(p.index, |leaves|); }
  }

  /** A total that is not the tree's can lead elsewhere: the third of three leaves as the second of two. */
  lemma WrongTotalMisplaces(hs: Hasher, a: Bytes, b: Bytes, d: Bytes)
    ensures var p := MerkleProof(1, 2, hs.leaf(d), [hs.inner(hs.leaf(a), hs.leaf(b))]);
            Verify(hs, p, d, Root(hs, [a, b, d])) == Ok(()) && Turned(p.index, p.total, 3) == 2
  {
    var leaves, aunts := [a, b, d], [hs.inner(hs.leaf(a), hs.leaf(b))];
    SplitsOfSmall();
    assert leaves[..2] == [a, b] && leaves[2..] == [d] && [a, b][..1] == [a] && [a, b][1..] == [b];
    assert Root(hs, [a, b]) == hs.inner(hs.leaf(a), hs.leaf(b)) && Root(hs, leaves[2..]) == hs.leaf(d);
    assert aunts[..0] == [] && SubtreeRootFromAunts(hs, 0, 1, hs.leaf(d), []) == Ok(hs.leaf(d));
    assert Turned(0, 1, 1) == 0;
  }

  /** And it need not: the first of four leaves verifies as the first of three. */
  lemma WrongTotalStaysInPlace(hs: Hasher, a: Bytes, b: Bytes, d: Bytes, e: Bytes)
    ensures var p := MerkleProof(0, 3, hs.leaf(a), [hs.leaf(b), hs.inner(hs.leaf(d), hs.leaf(e))]);
            Verify(hs, p, a, Root(hs, [a, b, d, e])) == Ok(()) && Turned(p.index, p.total, 4) == 0
  {
    var leaves, aunts := [a, b, d, e], [hs.leaf(b), hs.inner(hs.leaf(d), hs.leaf(e))];
    SplitsOfSmall();
    assert leaves[..2] == [a, b] && leaves[2..] == [d, e];
    assert [a, b][..1] == [a] && [a, b][1..] == [b] && [d, e][..1] == [d] && [d, e][1..] == [e];
    assert Root(hs, [a, b]) == hs.inner(hs.leaf(a), hs.leaf(b)) && Root(hs, [d, e]) == hs.inner(hs.leaf(d), hs.leaf(e));
    assert aunts[..1] == [hs.leaf(b)] && [hs.leaf(b)][..0] == [];
    assert SubtreeRootFromAunts(hs, 0, 1, hs.leaf(a), []) == Ok(hs.leaf(a));
    assert SubtreeRootFromAunts(hs, 0, 2, hs.leaf(a), [hs.leaf(b)]) == Ok(hs.inner(hs.leaf(a), hs.leaf(b)));
    assert Turned(0, 1, 1) == 0 && Turned(0, 2, 2) == 0;
  }

  lemma SplitsOfSmall()
    ensures Split(2) == RfcSplit(2) == 1 && Split(3) == RfcSplit(3) == 2 && Split(4) == RfcSplit(4) == 2
  {
    SplitIsRfc(2);
    SplitIsRfc(3);
    SplitIsRfc(4);
    assert NextPowerOfTwo(1) == 1 && NextPowerOfTwo(2) == 2 && NextPowerOfTwo(3) == 4 && NextPowerOfTwo(4) == 4;
  }

  /**
   The hypothesis `index < total` is needed: with any larger index, the proof of the last leaf
   still verifies.
   */
  lemma OutOfRangeIndexVerifies(hs: Hasher, leaves: seq<Bytes>, index: nat)
    requires 0 < |leaves| <= index
    ensures var last := |leaves| - 1;
            Verify(hs, ProofOf(hs, leaves, last).(index := index), leaves[last], Root(hs, leaves)) == Ok(())
  {
    var last := |leaves| - 1;
    PathVerifies(hs, leaves, last);
    IndexClamped(hs, index, |leaves|, hs.leaf(leaves[last]), Path(hs, leaves, last));
  }
}
