/**
 Blobs and their shares (types/src/blob.rs, types/src/blob/commitment.rs): splitting a blob's
 data over shares and reconstructing blobs from a stream of shares.

 A blob's commitment is a function of its namespace and data and is left out.
 */
module Blobs {
  import opened Wrappers
  import opened Shares

  datatype Blob = Blob(namespace: Namespace, data: seq<Byte>)

  datatype BlobError =
    | UnsupportedShareVersion
    | ShareSequenceLenExceeded
    | InvalidShare(error: ShareError)
    | MissingShares
    | ExpectedShareWithSequenceStart
    | UnexpectedReservedNamespace
    | BlobSharesMetadataMismatch
    | UnexpectedSequenceStart

  function CeilDiv(n: nat, d: nat): nat
    requires 0 < d
  {
    (n + d - 1) / d
  }

  /** `shares_needed_for_blob`, and `shares_len` of a blob with this much data. */
  function SharesNeeded(len: nat): nat {
    if len < FIRST_SPARSE_SHARE_CONTENT_SIZE then 1
    else 1 + CeilDiv(len - FIRST_SPARSE_SHARE_CONTENT_SIZE, CONTINUATION_SPARSE_SHARE_CONTENT_SIZE)
  }

  // ---- the layout ----------------------------------------------------------------------------

  function Zeros(n: nat): (z: seq<Byte>)
    ensures |z| == n
  {
    seq(n, _ => 0)
  }

  /** A share of a user's blob, padded with zeros; `len` is the sequence length in the first one. */
  function SparseShare(ns: Namespace, len: Option<nat>, content: seq<Byte>): (s: Share)
    requires len.Some? ==> len.value <= U32_MAX
    requires |content| <= Room(len)
    ensures s.Valid()
  {
    var header := ns + (if len.Some? then [1] + U32Bytes(len.value) else [0]);
    Share(header + content + Zeros(Room(len) - |content|), false)
  }

  function Room(len: Option<nat>): nat {
    if len.Some? then FIRST_SPARSE_SHARE_CONTENT_SIZE else CONTINUATION_SPARSE_SHARE_CONTENT_SIZE
  }

  function Take(data: seq<Byte>, n: nat): seq<Byte> { if |data| <= n then data else data[..n] }

  function Drop(data: seq<Byte>, n: nat): seq<Byte> { if |data| <= n then [] else data[n..] }

  function Continuations(ns: Namespace, data: seq<Byte>): (shares: seq<Share>)
    ensures AllValid(shares)
    decreases |data|
  {
    if data == [] then []
    else
      [SparseShare(ns, None, Take(data, CONTINUATION_SPARSE_SHARE_CONTENT_SIZE))]
      + Continuations(ns, Drop(data, CONTINUATION_SPARSE_SHARE_CONTENT_SIZE))
  }

  /** The shares of a blob: a first one with the length of the data, then continuations. */
  function Layout(blob: Blob): (shares: seq<Share>)
    requires |blob.data| <= U32_MAX
    ensures AllValid(shares)
  {
    if blob.data == [] then []
    else
      [SparseShare(blob.namespace, Some(|blob.data|), Take(blob.data, FIRST_SPARSE_SHARE_CONTENT_SIZE))]
      + Continuations(blob.namespace, Drop(blob.data, FIRST_SPARSE_SHARE_CONTENT_SIZE))
  }

  /** What the accessors of a laid out share return. */
  lemma SparseShareFields(ns: Namespace, len: Option<nat>, content: seq<Byte>)
    requires len.Some? ==> len.value <= U32_MAX
    requires |content| <= Room(len)
    ensures var s := SparseShare(ns, len, content);
            && s.Namespace() == ns
            && s.InfoByte() == Some(if len.Some? then 1 else 0)
            && s.SequenceLength() == len
            && s.Payload() == Some(content + Zeros(Room(len) - |content|))
  {
    var s := SparseShare(ns, len, content);
    var padded := content + Zeros(Room(len) - |content|);
    assert s.data[..NS_SIZE] == ns;
    if len.Some? {
      U32RoundTrip(len.value);
      assert s.data == ns + [1] + U32Bytes(len.value) + padded;
      assert s.data[NS_SIZE + 1..NS_SIZE + 5] == U32Bytes(len.value);
      assert s.data[NS_SIZE + 5..] == padded;
    } else {
      assert s.data == ns + [0] + padded;
      assert s.data[NS_SIZE + 1..] == padded;
    }
  }

  /** The bytes of a laid out share, place by place. */
  lemma SparseShareBytes(ns: Namespace, len: Option<nat>, content: seq<Byte>)
    requires len.Some? ==> len.value <= U32_MAX
    requires |content| <= Room(len)
    ensures Room(len) == if len.Some? then 478 else 482
    ensures var b, from := SparseShare(ns, len, content).data, if len.Some? then 34 else 30;
            && |b| == 512 && b[..29] == ns && b[29] == (if len.Some? then 1 else 0)
            && (len.Some? ==> 0x100_0000 * b[30] as int + 0x1_0000 * b[31] as int + 0x100 * b[32] as int + b[33] == len.value)
            && b[from..from + |content|] == content
            && forall i :: from + |content| <= i < 512 ==> b[i] == 0
  {
    var b := SparseShare(ns, len, content).data;
    if len.Some? {
      Digits(len.value);
      assert b == ns + [1] + U32Bytes(len.value) + content + Zeros(Room(len) - |content|);
    } else {
      assert b == ns + [0] + content + Zeros(Room(len) - |content|);
    }
  }

  // ---- splitting -----------------------------------------------------------------------------

  /** One share from position `pos` of the data on. */
  method BuildSparseShareV0(ns: Namespace, data: seq<Byte>, pos: nat)
    returns (r: Result<Share, BlobError>, pos': nat)
    requires pos <= |data|
    ensures r.Ok? <==> (pos == 0 ==> |data| <= U32_MAX) && IsValidNamespace(ns)
    ensures pos == 0 && |data| > U32_MAX ==> r == Err(ShareSequenceLenExceeded)
    ensures r.Ok? ==>
              var len := if pos == 0 then Some(|data|) else None;
              && r.value == SparseShare(ns, len, Take(data[pos..], Room(len)))
              && pos' == pos + |Take(data[pos..], Room(len))|
  {
    var isFirst := pos == 0;
    var bytes: seq<Byte> := ns;
    bytes := bytes + [if isFirst then 1 else 0];
    if isFirst {
      if |data| > U32_MAX {
        return Err(ShareSequenceLenExceeded), pos;
      }
      bytes := bytes + U32Bytes(|data|);
    }
    var available := SHARE_SIZE - |bytes|;
    var amount := if available < |data| - pos then available else |data| - pos;
    var content := data[pos..pos + amount];
    assert content == Take(data[pos..], available);
    bytes := bytes + content + Zeros(available - amount);
    pos' := pos + amount;
    assert bytes[..NS_SIZE] == ns;
    var share := FromRaw(bytes);
    r := if share.Ok? then Ok(share.value) else Err(InvalidShare(share.error));
  }

  /** `to_shares`: exactly the layout, for version 0 and data whose length fits four bytes. */
  method SplitBlobToShares(ns: Namespace, version: nat, data: seq<Byte>)
    returns (r: Result<seq<Share>, BlobError>)
    ensures r.Ok? <==> version == 0 && (data == [] || (|data| <= U32_MAX && IsValidNamespace(ns)))
    ensures r.Ok? ==> |data| <= U32_MAX && r.value == Layout(Blob(ns, data))
    ensures version != 0 ==> r == Err(UnsupportedShareVersion)
  {
    if version != 0 {
      return Err(UnsupportedShareVersion);
    }
    var shares: seq<Share> := [];
    var pos := 0;
    while pos < |data|
      invariant pos <= |data|
      invariant pos > 0 ==> |data| <= U32_MAX && IsValidNamespace(ns)
      invariant |data| <= U32_MAX ==> shares + LayoutFrom(ns, data, pos) == Layout(Blob(ns, data))
    {
      var share, next := BuildSparseShareV0(ns, data, pos);
      if share.Err? {
        return Err(share.error);
      }
      LayoutOneMore(ns, data, pos, share.value, next);
      Regroup(shares, share.value, LayoutFrom(ns, data, next));
      shares := shares + [share.value];
      pos := next;
    }
    assert |data| <= U32_MAX ==> LayoutFrom(ns, data, |data|) == [];
    assert shares + [] == shares;
    r := Ok(shares);
  }

  lemma Regroup(a: seq<Share>, s: Share, b: seq<Share>)
    ensures a + ([s] + b) == (a + [s]) + b
  {
  }

  /** The shares that are still to be built from position `pos` on. */
  ghost function LayoutFrom(ns: Namespace, data: seq<Byte>, pos: nat): seq<Share>
    requires pos <= |data| <= U32_MAX
  {
    if pos == 0 then Layout(Blob(ns, data)) else Continuations(ns, data[pos..])
  }

  lemma LayoutOneMore(ns: Namespace, data: seq<Byte>, pos: nat, share: Share, next: nat)
    requires pos < |data| <= U32_MAX
    requires var len := if pos == 0 then Some(|data|) else None;
             && share == SparseShare(ns, len, Take(data[pos..], Room(len)))
             && next == pos + |Take(data[pos..], Room(len))|
    ensures LayoutFrom(ns, data, pos) == [share] + LayoutFrom(ns, data, next)
  {
    assert data[0..] == data;
    var room := if pos == 0 then FIRST_SPARSE_SHARE_CONTENT_SIZE else CONTINUATION_SPARSE_SHARE_CONTENT_SIZE;
    assert data[next..] == Drop(data[pos..], room);
  }

  lemma {:induction false} ContinuationsLength(ns: Namespace, data: seq<Byte>)
    ensures |Continuations(ns, data)| == CeilDiv(|data|, CONTINUATION_SPARSE_SHARE_CONTENT_SIZE)
    decreases |data|
  {
    if data != [] {
      ContinuationsLength(ns, Drop(data, CONTINUATION_SPARSE_SHARE_CONTENT_SIZE));
    }
  }

  /** A blob uses exactly `shares_len` shares - unless it is empty and uses none. */
  lemma LayoutLength(blob: Blob)
    requires |blob.data| <= U32_MAX
    ensures |Layout(blob)| == SharesNeeded(|blob.data|) <==> blob.data != []
    ensures blob.data == [] ==> Layout(blob) == [] && SharesNeeded(|blob.data|) == 1
  {
    ContinuationsLength(blob.namespace, Drop(blob.data, FIRST_SPARSE_SHARE_CONTENT_SIZE));
  }

  // ---- reconstructing ------------------------------------------------------------------------

  /** `s` continues a sequence of this namespace and version. */
  ghost predicate Continues(s: Share, ns: Namespace, version: nat)
    requires s.Valid()
  {
    s.Namespace() == ns && s.InfoByte().Some? && Version(s.InfoByte().value) == version && s.SequenceLength().None?
  }

  /** The shares start with a complete sequence of a user namespace. */
  ghost predicate StartsWithSequence(shares: seq<Share>)
    requires AllValid(shares)
  {
    && shares != [] && shares[0].SequenceLength().Some? && !IsReserved(shares[0].Namespace())
    && var needed := SharesNeeded(shares[0].SequenceLength().value);
       var ns, version := shares[0].Namespace(), Version(shares[0].InfoByte().value);
       && needed <= |shares|
       && forall i :: 1 <= i < needed ==> Continues(shares[i], ns, version)
  }

  ghost function Payloads(shares: seq<Share>): seq<Byte>
    requires AllValid(shares)
  {
    if shares == [] then []
    else
      var n := |shares| - 1;
      Payloads(shares[..n]) + (if shares[n].Payload().Some? then shares[n].Payload().value else [])
  }

  /** The first blob of a stream of shares: its payloads cut to the sequence length. */
  ghost function FirstBlob(shares: seq<Share>): Blob
    requires AllValid(shares) && StartsWithSequence(shares)
  {
    var len := shares[0].SequenceLength().value;
    Blob(shares[0].Namespace(), Take(Payloads(shares[..SharesNeeded(len)]), len))
  }

  ghost function AfterFirstBlob(shares: seq<Share>): seq<Share>
    requires AllValid(shares) && StartsWithSequence(shares)
  {
    shares[SharesNeeded(shares[0].SequenceLength().value)..]
  }

  /** Consumes the shares of one blob from the front of a stream. */
  method Reconstruct(shares: seq<Share>) returns (r: Result<Blob, BlobError>, rest: seq<Share>)
    requires AllValid(shares)
    ensures r.Ok? <==> StartsWithSequence(shares)
    ensures r.Ok? ==> r.value == FirstBlob(shares) && rest == AfterFirstBlob(shares)
    ensures shares == [] ==> r == Err(MissingShares)
    ensures shares != [] && shares[0].SequenceLength().None? ==> r == Err(ExpectedShareWithSequenceStart)
    ensures shares != [] && shares[0].SequenceLength().Some? && IsReserved(shares[0].Namespace()) ==>
              r == Err(UnexpectedReservedNamespace)
    ensures shares != [] && shares[0].SequenceLength().Some? && !IsReserved(shares[0].Namespace()) && r.Err? ==>
              exists i: nat :: IsFirstFault(shares, SharesNeeded(shares[0].SequenceLength().value), shares[0].Namespace(),
                                            Version(shares[0].InfoByte().value), i, r.error)
  {
    rest := shares;
    if shares == [] {
      return Err(MissingShares), rest;
    }
    var first := shares[0];
    var blobLen := first.SequenceLength();
    if blobLen.None? {
      return Err(ExpectedShareWithSequenceStart), rest;
    }
    var ns := first.Namespace();
    if IsReserved(ns) {
      return Err(UnexpectedReservedNamespace), rest;
    }
    var version := Version(first.InfoByte().value);
    var needed := SharesNeeded(blobLen.value);
    ParityIsHighest(ns);
    var data := CollectSequence(shares, needed, ns, version);
    if data.Err? {
      return Err(data.error), rest;
    }
    rest := shares[needed..];
    r := Ok(Blob(ns, Take(data.value, blobLen.value)));
  }

  ghost predicate ContinuesUpTo(shares: seq<Share>, n: nat, ns: Namespace, version: nat)
    requires AllValid(shares)
  {
    n <= |shares| && forall k :: 1 <= k < n ==> Continues(shares[k], ns, version)
  }

  lemma ContinuesOneMore(shares: seq<Share>, i: nat, ns: Namespace, version: nat)
    requires AllValid(shares) && i < |shares| && ContinuesUpTo(shares, i, ns, version)
    requires Continues(shares[i], ns, version)
    ensures ContinuesUpTo(shares, i + 1, ns, version)
  {
    forall k | 1 <= k < i + 1 ensures Continues(shares[k], ns, version) {
      if k == i { assert Continues(shares[i], ns, version); }
    }
  }

  /** Why a share does not continue a sequence of this namespace and version. */
  function Fault(s: Share, ns: Namespace, version: nat): BlobError
    requires s.Valid()
  {
    if s.isParity || s.Namespace() != ns || Version(s.InfoByte().value) != version then BlobSharesMetadataMismatch
    else UnexpectedSequenceStart
  }

  /** Share `i` is the first that is missing or does not continue the sequence, and this is why. */
  ghost predicate IsFirstFault(shares: seq<Share>, needed: nat, ns: Namespace, version: nat, i: nat, error: BlobError)
    requires AllValid(shares)
  {
    && 1 <= i < needed && ContinuesUpTo(shares, i, ns, version)
    && if i == |shares| then error == MissingShares
       else !Continues(shares[i], ns, version) && error == Fault(shares[i], ns, version)
  }

  /** The loop of `reconstruct`: gathers the payloads of a sequence, checking each continuation. */
  method CollectSequence(shares: seq<Share>, needed: nat, ns: Namespace, version: nat)
    returns (r: Result<seq<Byte>, BlobError>)
    requires AllValid(shares) && shares != [] && !shares[0].isParity && ns != PARITY_SHARE && 1 <= needed
    ensures r.Ok? <==> needed <= |shares| && forall i :: 1 <= i < needed ==> Continues(shares[i], ns, version)
    ensures r.Ok? ==> r.value == Payloads(shares[..needed])
    ensures r.Err? ==> exists i: nat :: IsFirstFault(shares, needed, ns, version, i, r.error)
  {
    var data := shares[0].Payload().value;
    assert shares[..1] == [shares[0]];
    PayloadsSingle(shares[0]);
    for i := 1 to needed
      invariant ContinuesUpTo(shares, i, ns, version)
      invariant data == Payloads(shares[..i])
    {
      if i == |shares| {
        assert IsFirstFault(shares, needed, ns, version, i, MissingShares);
        return Err(MissingShares);
      }
      var fault := CheckContinuation(shares[i], ns, version);
      if fault.Some? {
        assert IsFirstFault(shares, needed, ns, version, i, fault.value);
        return Err(fault.value);
      }
      ContinuesOneMore(shares, i, ns, version);
      PayloadsOneMore(shares, i);
      data := data + shares[i].Payload().value;
    }
    r := Ok(data);
  }

  method CheckContinuation(share: Share, ns: Namespace, version: nat) returns (fault: Option<BlobError>)
    requires share.Valid() && ns != PARITY_SHARE
    ensures fault == if Continues(share, ns, version) then None else Some(Fault(share, ns, version))
    ensures share.isParity || share.Namespace() != ns || share.InfoByte().value / 2 != version ==>
              fault == Some(BlobSharesMetadataMismatch)
    ensures !share.isParity && share.Namespace() == ns && share.InfoByte().value / 2 == version ==>
              fault == if share.InfoByte().value % 2 == 1 then Some(UnexpectedSequenceStart) else None
  {
    if share.Namespace() != ns {
      return Some(BlobSharesMetadataMismatch);
    }
    if Version(share.InfoByte().value) != version {
      return Some(BlobSharesMetadataMismatch);
    }
    if share.SequenceLength().Some? {
      return Some(UnexpectedSequenceStart);
    }
    return None;
  }

  lemma PayloadsOneMore(shares: seq<Share>, i: nat)
    requires AllValid(shares) && i < |shares| && shares[i].Payload().Some?
    ensures Payloads(shares[..i + 1]) == Payloads(shares[..i]) + shares[i].Payload().value
  {
    assert shares[..i + 1] == shares[..i] + [shares[i]];
    PayloadsConcat(shares[..i], [shares[i]]);
    PayloadsSingle(shares[i]);
  }

  predicate IsNonReserved(s: Share) { |s.data| == SHARE_SIZE && !IsReserved(s.Namespace()) }

  /** The shares that are not in a reserved namespace, in order. */
  function NonReserved(shares: seq<Share>): (r: seq<Share>)
    requires AllValid(shares)
    ensures AllValid(r)
  {
    Filtered(shares, IsNonReserved)
  }

  /** All blobs of a stream without reserved shares; none if one of its sequences is broken. */
  ghost function AllBlobs(shares: seq<Share>): Option<seq<Blob>>
    requires AllValid(shares)
    decreases |shares|
  {
    if shares == [] then Some([])
    else if shares[0].SequenceLength().None? then AllBlobs(shares[1..])
    else if !StartsWithSequence(shares) then None
    else
      match AllBlobs(AfterFirstBlob(shares))
      case None => None
      case Some(blobs) => Some([FirstBlob(shares)] + blobs)
  }

  /** Seeks sequence starts in the stream and reconstructs a blob at each. */
  method ReconstructAll(shares: seq<Share>) returns (r: Result<seq<Blob>, BlobError>)
    requires AllValid(shares)
    ensures r.Ok? <==> AllBlobs(NonReserved(shares)).Some?
    ensures r.Ok? ==> r.value == AllBlobs(NonReserved(shares)).value
    ensures forall blobs: seq<Blob> | AllUserBlobs(blobs) && NonReserved(shares) == LayoutAll(blobs) ::
              r == Ok(NonEmpty(blobs)) && (r == Ok(blobs) <==> NoneEmpty(blobs))
  {
    forall blobs: seq<Blob> | AllUserBlobs(blobs) && NonReserved(shares) == LayoutAll(blobs)
      ensures AllBlobs(NonReserved(shares)) == Some(NonEmpty(blobs))
      ensures NonEmpty(blobs) == blobs <==> NoneEmpty(blobs)
    {
      AllBlobsOfLayout(blobs);
      NonEmptyIsAll(blobs);
    }
    var stream := NonReserved(shares);
    var blobs: seq<Blob> := [];
    ghost var all := AllBlobs(stream);
    while stream != []
      invariant AllValid(stream)
      invariant all.None? <==> AllBlobs(stream).None?
      invariant all.Some? ==> all.value == blobs + AllBlobs(stream).value
      decreases |stream|
    {
      if stream[0].SequenceLength().None? {
        stream := stream[1..];
      } else {
        var blob, rest := Reconstruct(stream);
        if blob.Err? {
          return Err(blob.error);
        }
        assert all.Some? ==> blobs + ([blob.value] + AllBlobs(rest).value) == blobs + [blob.value] + AllBlobs(rest).value;
        blobs := blobs + [blob.value];
        stream := rest;
      }
    }
    r := Ok(blobs);
  }

  // ---- the round trip ------------------------------------------------------------------------

  ghost predicate IsUserBlob(b: Blob) { |b.data| <= U32_MAX && !IsReserved(b.namespace) }

  ghost predicate AllUserBlobs(blobs: seq<Blob>) { forall i :: 0 <= i < |blobs| ==> IsUserBlob(blobs[i]) }

  ghost predicate NoneEmpty(blobs: seq<Blob>) { forall i :: 0 <= i < |blobs| ==> blobs[i].data != [] }

  ghost function LayoutAll(blobs: seq<Blob>): (shares: seq<Share>)
    requires AllUserBlobs(blobs)
    ensures AllValid(shares)
  {
    if blobs == [] then []
    else
      assert IsUserBlob(blobs[0]);
      Layout(blobs[0]) + LayoutAll(blobs[1..])
  }

  ghost function NonEmpty(blobs: seq<Blob>): seq<Blob> {
    if blobs == [] then [] else (if blobs[0].data == [] then [] else [blobs[0]]) + NonEmpty(blobs[1..])
  }

  lemma {:induction false} PayloadsConcat(a: seq<Share>, b: seq<Share>)
    requires AllValid(a) && AllValid(b)
    ensures Payloads(a + b) == Payloads(a) + Payloads(b)
  {
    if b == [] {
      assert a + b == a;
    } else {
      var n := |b| - 1;
      PayloadsConcat(a, b[..n]);
      assert (a + b)[..|a + b| - 1] == a + b[..n];
    }
  }

  lemma PayloadsSingle(s: Share)
    requires s.Valid() && s.Payload().Some?
    ensures Payloads([s]) == s.Payload().value
  {
    assert [s][..0] == [];
  }

  /** The continuation shares of some data continue a sequence of version 0. */
  lemma {:induction false} ContinuationsContinue(ns: Namespace, data: seq<Byte>)
    ensures forall i :: 0 <= i < |Continuations(ns, data)| ==> Continues(Continuations(ns, data)[i], ns, 0)
    decreases |data|
  {
    if data != [] {
      var room := CONTINUATION_SPARSE_SHARE_CONTENT_SIZE;
      SparseShareFields(ns, None, Take(data, room));
      ContinuationsContinue(ns, Drop(data, room));
    }
  }

  /** Their payloads hold the data. */
  lemma {:induction false} ContinuationsPayloads(ns: Namespace, data: seq<Byte>)
    ensures data <= Payloads(Continuations(ns, data))
    decreases |data|
  {
    if data != [] {
      var room := CONTINUATION_SPARSE_SHARE_CONTENT_SIZE;
      var head, tail := Take(data, room), Drop(data, room);
      var first, rest := SparseShare(ns, None, head), Continuations(ns, tail);
      SparseShareFields(ns, None, head);
      ContinuationsPayloads(ns, tail);
      PayloadsSingle(first);
      PayloadsConcat([first], rest);
      JoinedPayloads(data, head, tail, first.Payload().value, Payloads(rest));
    }
  }

  /** Padding comes only after the last piece of the data. */
  lemma JoinedPayloads(data: seq<Byte>, head: seq<Byte>, tail: seq<Byte>, padded: seq<Byte>, held: seq<Byte>)
    requires data == head + tail && head <= padded && (tail != [] ==> padded == head) && tail <= held
    ensures data <= padded + held
  {
  }

  /** The shares of a blob: their fields and their number. */
  lemma LayoutFields(blob: Blob)
    requires |blob.data| <= U32_MAX && blob.data != []
    ensures var shares := Layout(blob);
            && |shares| == SharesNeeded(|blob.data|)
            && shares[0].Namespace() == blob.namespace && shares[0].InfoByte() == Some(1)
            && shares[0].SequenceLength() == Some(|blob.data|)
            && forall i :: 1 <= i < |shares| ==> Continues(shares[i], blob.namespace, 0)
  {
    var room, ns, data := FIRST_SPARSE_SHARE_CONTENT_SIZE, blob.namespace, blob.data;
    var rest := Continuations(ns, Drop(data, room));
    SparseShareFields(ns, Some(|data|), Take(data, room));
    ContinuationsContinue(ns, Drop(data, room));
    LayoutLength(blob);
    assert forall i :: 1 <= i < |Layout(blob)| ==> Layout(blob)[i] == rest[i - 1];
  }

  /** The payloads of a blob's shares hold its data. */
  lemma LayoutPayloads(blob: Blob)
    requires |blob.data| <= U32_MAX && blob.data != []
    ensures blob.data <= Payloads(Layout(blob))
  {
    var room, ns, data := FIRST_SPARSE_SHARE_CONTENT_SIZE, blob.namespace, blob.data;
    var head, tail := Take(data, room), Drop(data, room);
    var first, rest := SparseShare(ns, Some(|data|), head), Continuations(ns, tail);
    SparseShareFields(ns, Some(|data|), head);
    ContinuationsPayloads(ns, tail);
    PayloadsSingle(first);
    PayloadsConcat([first], rest);
    JoinedPayloads(data, head, tail, first.Payload().value, Payloads(rest));
  }

  /** A laid out blob followed by anything parses to the blob and what follows. */
  lemma LayoutParses(blob: Blob, after: seq<Share>)
    requires IsUserBlob(blob) && blob.data != [] && AllValid(after)
    ensures StartsWithSequence(Layout(blob) + after)
    ensures FirstBlob(Layout(blob) + after) == blob && AfterFirstBlob(Layout(blob) + after) == after
  {
    var shares, stream := Layout(blob), Layout(blob) + after;
    LayoutFields(blob);
    LayoutPayloads(blob);
    assert forall i :: 0 <= i < |shares| ==> stream[i] == shares[i];
    assert stream[..|shares|] == shares && stream[|shares|..] == after;
  }

  lemma ParseFirst(shares: seq<Share>)
    requires AllValid(shares) && StartsWithSequence(shares) && AllBlobs(AfterFirstBlob(shares)).Some?
    ensures AllBlobs(shares) == Some([FirstBlob(shares)] + AllBlobs(AfterFirstBlob(shares)).value)
  {
  }

  lemma {:induction false} AllBlobsOfLayout(blobs: seq<Blob>)
    requires AllUserBlobs(blobs)
    ensures AllBlobs(LayoutAll(blobs)) == Some(NonEmpty(blobs))
  {
    if blobs != [] {
      AllBlobsOfLayout(blobs[1..]);
      assert IsUserBlob(blobs[0]);
      if blobs[0].data == [] {
        assert LayoutAll(blobs) == LayoutAll(blobs[1..]);
        assert NonEmpty(blobs) == NonEmpty(blobs[1..]);
      } else {
        LayoutParses(blobs[0], LayoutAll(blobs[1..]));
        ParseFirst(LayoutAll(blobs));
      }
    }
  }

  /**
   Reconstruction inverts the layout: from any stream whose non-reserved shares are those of a
   list of user blobs in order, with reserved or parity shares anywhere in between, exactly the
   non-empty blobs come back. So the list comes back as it was if and only if no blob is empty.
   */
  lemma ReconstructionInvertsLayout(blobs: seq<Blob>, shares: seq<Share>)
    requires AllUserBlobs(blobs)
    requires AllValid(shares) && NonReserved(shares) == LayoutAll(blobs)
    ensures AllBlobs(NonReserved(shares)) == Some(NonEmpty(blobs))
    ensures AllBlobs(NonReserved(shares)) == Some(blobs) <==> NoneEmpty(blobs)
  {
    AllBlobsOfLayout(blobs);
    NonEmptyIsAll(blobs);
  }

  lemma {:induction false} NonEmptyIsAll(blobs: seq<Blob>)
    ensures |NonEmpty(blobs)| <= |blobs|
    ensures NonEmpty(blobs) == blobs <==> NoneEmpty(blobs)
  {
    if blobs != [] {
      NonEmptyIsAll(blobs[1..]);
      assert blobs == [blobs[0]] + blobs[1..];
      if blobs[0].data != [] {
        assert NonEmpty(blobs)[1..] == NonEmpty(blobs[1..]);
        assert forall i :: 1 <= i < |blobs| ==> blobs[i] == blobs[1..][i - 1];
      }
    }
  }

  /** A reserved or parity share is ignored wherever it is put. */
  lemma InsertedShareIgnored(before: seq<Share>, inserted: Share, after: seq<Share>)
    requires AllValid(before) && AllValid(after) && inserted.Valid()
    requires inserted.isParity || IsReserved(inserted.Namespace())
    ensures NonReserved(before + [inserted] + after) == NonReserved(before + after)
  {
    ReservedDropped(inserted);
    FilteredConcat(before, [inserted], IsNonReserved);
    FilteredConcat(before + [inserted], after, IsNonReserved);
    FilteredConcat(before, after, IsNonReserved);
  }

  lemma ReservedDropped(s: Share)
    requires s.Valid() && (s.isParity || IsReserved(s.Namespace()))
    ensures NonReserved([s]) == []
  {
    ParityIsHighest(PARITY_SHARE);
    assert !IsNonReserved(s);
    assert [s][..0] == [] && Filtered<Share>([], IsNonReserved) == [];
  }

  /** The shares of user blobs all pass the filter. */
  lemma {:induction false} LayoutAllPasses(blobs: seq<Blob>)
    requires AllUserBlobs(blobs)
    ensures forall i :: 0 <= i < |LayoutAll(blobs)| ==> !IsReserved(LayoutAll(blobs)[i].Namespace())
    ensures NonReserved(LayoutAll(blobs)) == LayoutAll(blobs)
  {
    if blobs != [] {
      LayoutAllPasses(blobs[1..]);
      assert IsUserBlob(blobs[0]);
      var first := Layout(blobs[0]);
      if blobs[0].data != [] { LayoutFields(blobs[0]); }
      forall i | 0 <= i < |first| ensures first[i].Namespace() == blobs[0].namespace {
        if i > 0 { assert Continues(first[i], blobs[0].namespace, 0); }
      }
    }
    FilteredAll(LayoutAll(blobs), IsNonReserved);
  }
}
