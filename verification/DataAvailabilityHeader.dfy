/**
 Row proofs against the data availability header (types/src/data_availability_header.rs).
 The header's hash is the Merkle root of all row roots followed by all column roots.
 */
module DataAvailabilityHeaders {
  import opened Wrappers
  import opened MerkleProofs

  const U16_MAX: nat := 0xFFFF

  type u16 = x: nat | x <= U16_MAX

  datatype DataAvailabilityHeader = DataAvailabilityHeader(rowRoots: seq<Bytes>, columnRoots: seq<Bytes>) {
    /** What is hashed: the row roots and then the column roots. */
    function AllRoots(): seq<Bytes> { rowRoots + columnRoots }

    ghost function Hash(hs: Hasher): Bytes { Root(hs, AllRoots()) }
  }

  /** Every root is hashed once, in its place: row roots first, then column roots, and nothing else. */
  lemma RootsInOrder(dah: DataAvailabilityHeader)
    ensures |dah.AllRoots()| == |dah.rowRoots| + |dah.columnRoots|
    ensures forall i :: 0 <= i < |dah.rowRoots| ==> dah.AllRoots()[i] == dah.rowRoots[i]
    ensures forall i :: 0 <= i < |dah.columnRoots| ==> dah.AllRoots()[|dah.rowRoots| + i] == dah.columnRoots[i]
  {
  }

  datatype RowProof = RowProof(rowRoots: seq<Bytes>, proofs: seq<MerkleProof>, startRow: u16, endRow: u16)

  datatype RowProofError =
    | Malformed
    | EmptyHash
    | Merkle(error: Error)

  /** The number of rows a proof claims, in 16-bit arithmetic: the full span wraps to 0. */
  function SpanLength(start: u16, end: u16): nat
    requires start <= end
  {
    var rows := end - start + 1;
    if rows <= U16_MAX then rows else rows - (U16_MAX + 1)
  }

  /** What a row proof must satisfy to be accepted against a root. */
  ghost predicate Accepted(hs: Hasher, p: RowProof, root: Bytes) {
    && |p.rowRoots| == |p.proofs|
    && p.startRow <= p.endRow
    && |p.proofs| == SpanLength(p.startRow, p.endRow)
    && forall i :: 0 <= i < |p.proofs| ==> Verify(hs, p.proofs[i], p.rowRoots[i], root) == Ok(())
  }

  /**
   The proof of rows `start` to `end`: it exists exactly when every row does, blames the first
   missing row, and is accepted against the hash of the header unless the span is empty or its
   length does not fit 16 bits.
   */
  method ProveRows(hs: Hasher, dah: DataAvailabilityHeader, start: u16, end: u16)
    returns (r: Result<RowProof, Error>)
    ensures r.Ok? <==> start > end || end < |dah.rowRoots|
    ensures r.Ok? ==> r.value.startRow == start && r.value.endRow == end
    ensures r.Ok? && start <= end ==> r.value.rowRoots == dah.rowRoots[start..end + 1]
    ensures r.Ok? ==> (Accepted(hs, r.value, dah.Hash(hs)) <==> start <= end && end - start < 65535)
    ensures r.Err? ==>
              var missing := if start < |dah.rowRoots| then |dah.rowRoots| else start;
              r.error == IndexOutOfRange(missing, if missing < |dah.AllRoots()| then |dah.rowRoots| else |dah.AllRoots()|)
  {
    var allRoots := dah.AllRoots();
    var proofs: seq<MerkleProof>, rowRoots: seq<Bytes> := [], [];
    var idx: nat := start;
    while idx <= end
      invariant start <= idx && (start <= end ==> idx <= end + 1) && (start > end ==> idx == start)
      invariant idx > start ==> idx <= |dah.rowRoots|
      invariant |proofs| == |rowRoots| == idx - start
      invariant forall i :: 0 <= i < |proofs| ==> rowRoots[i] == dah.rowRoots[start + i]
      invariant forall i :: 0 <= i < |proofs| ==> Verify(hs, proofs[i], rowRoots[i], dah.Hash(hs)) == Ok(())
    {
      var proof := New(hs, idx, allRoots);
      if proof.Err? {
        return Err(proof.error);
      }
      if idx >= |dah.rowRoots| {
        return Err(IndexOutOfRange(idx, |dah.rowRoots|));
      }
      assert allRoots[idx] == dah.rowRoots[idx];
      proofs, rowRoots := proofs + [proof.value.0], rowRoots + [dah.rowRoots[idx]];
      idx := idx + 1;
    }
    r := Ok(RowProof(rowRoots, proofs, start, end));
    AcceptedIfItFits(hs, r.value, dah.Hash(hs));
    if start <= end {
      assert rowRoots == dah.rowRoots[start..end + 1];
    }
  }

  lemma AcceptedIfItFits(hs: Hasher, p: RowProof, root: Bytes)
    requires |p.rowRoots| == |p.proofs| == if p.startRow <= p.endRow then p.endRow - p.startRow + 1 else 0
    requires forall i :: 0 <= i < |p.proofs| ==> Verify(hs, p.proofs[i], p.rowRoots[i], root) == Ok(())
    ensures Accepted(hs, p, root) <==> p.startRow <= p.endRow && p.endRow - p.startRow < 65535
  {
  }

  /** Checks a row proof; `root` is absent for the empty hash. */
  method VerifyRows(hs: Hasher, p: RowProof, root: Option<Bytes>) returns (r: Result<(), RowProofError>)
    ensures r.Ok? <==> root.Some? && Accepted(hs, p, root.value)
    ensures r == Err(Malformed) <==>
            !(|p.rowRoots| == |p.proofs| && p.startRow <= p.endRow && |p.proofs| == SpanLength(p.startRow, p.endRow))
    ensures r == Err(EmptyHash) ==> root.None?
  {
    if |p.rowRoots| != |p.proofs| || p.endRow < p.startRow {
      return Err(Malformed);
    }
    if SpanLength(p.startRow, p.endRow) != |p.proofs| {
      return Err(Malformed);
    }
    if root.None? {
      return Err(EmptyHash);
    }
    for i := 0 to |p.proofs|
      invariant forall k :: 0 <= k < i ==> Verify(hs, p.proofs[k], p.rowRoots[k], root.value) == Ok(())
    {
      var v := Verify(hs, p.proofs[i], p.rowRoots[i], root.value);
      if v.Err? {
        return Err(Merkle(v.error));
      }
    }
    r := Ok(());
  }

  /** Does every proof sit at the row it claims, in a tree as wide as the header's? */
  ghost predicate AtClaimedRows(p: RowProof, dah: DataAvailabilityHeader) {
    forall i :: 0 <= i < |p.proofs| ==>
      p.proofs[i].index == p.startRow + i < |dah.rowRoots| && p.proofs[i].total == |dah.AllRoots()|
  }

  /** Where the proof of entry `i` leads among all roots of the header. */
  ghost function LeadsTo(p: RowProof, dah: DataAvailabilityHeader, i: nat): nat
    requires i < |p.proofs|
  {
    Turned(p.proofs[i].index, p.proofs[i].total, |dah.AllRoots()|)
  }

  /**
   What acceptance proves: each claimed root is the root of the header where its proof leads - or
   here is a collision. If all roots differ, it is the root of the row it claims if and only if
   its proof leads there, as it does if the proofs sit at the rows they claim.
   */
  lemma AcceptedRootIsMember(hs: Hasher, p: RowProof, dah: DataAvailabilityHeader, i: nat)
    returns (c: Option<Collision>)
    requires Accepted(hs, p, dah.Hash(hs)) && i < |p.rowRoots|
    ensures c.None? ==> p.rowRoots[i] in dah.AllRoots() && p.rowRoots[i] == dah.AllRoots()[LeadsTo(p, dah, i)]
    ensures c.None? && NoDuplicates(dah.AllRoots()) && p.startRow + i < |dah.rowRoots| ==>
              (p.rowRoots[i] == dah.rowRoots[p.startRow + i] <==> LeadsTo(p, dah, i) == p.startRow + i)
    ensures c.None? && AtClaimedRows(p, dah) ==> p.rowRoots[i] == dah.rowRoots[p.startRow + i]
    ensures c.Some? ==> IsCollision(hs, c.value)
  {
    var all := dah.AllRoots();
    c := VerifiedLeafIsMember(hs, p.proofs[i], p.rowRoots[i], all);
    if c.None? && p.startRow + i < |dah.rowRoots| {
      assert all[p.startRow + i] == dah.rowRoots[p.startRow + i];
    }
    if c.None? && AtClaimedRows(p, dah) {
      assert p.proofs[i].index == p.startRow + i < |dah.rowRoots|;
    }
  }

  /** Acceptance alone does not say "row": the proof of any column root passes as any row's. */
  lemma ColumnPassesAsRow(hs: Hasher, dah: DataAvailabilityHeader, column: nat, row: u16)
    requires column < |dah.columnRoots|
    ensures var all := dah.AllRoots();
            var p := ProofOf(hs, all, |dah.rowRoots| + column);
            Accepted(hs, RowProof([dah.columnRoots[column]], [p], row, row), dah.Hash(hs))
  {
    var all := dah.AllRoots();
    PathVerifies(hs, all, |dah.rowRoots| + column);
    OneRowAccepted(hs, ProofOf(hs, all, |dah.rowRoots| + column), dah.columnRoots[column], row, dah.Hash(hs));
  }

  lemma OneRowAccepted(hs: Hasher, p: MerkleProof, leaf: Bytes, row: u16, root: Bytes)
    requires Verify(hs, p, leaf, root) == Ok(())
    ensures Accepted(hs, RowProof([leaf], [p], row, row), root)
  {
  }
}
