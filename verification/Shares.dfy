/**
 Shares and namespaces (types/src/share.rs, types/src/share/info_byte.rs, types/src/nmt.rs):
 512 bytes laid out as namespace, info byte, sequence length in the first share of a sequence,
 and data.
 */
module Shares {
  import opened Wrappers

  type Byte = b: nat | b < 256

  const SHARE_SIZE := 512
  const NS_SIZE := 29
  const SHARE_INFO_BYTES := 1
  const SEQUENCE_LEN_BYTES := 4
  const FIRST_SPARSE_SHARE_CONTENT_SIZE := SHARE_SIZE - NS_SIZE - SHARE_INFO_BYTES - SEQUENCE_LEN_BYTES
  const CONTINUATION_SPARSE_SHARE_CONTENT_SIZE := SHARE_SIZE - NS_SIZE - SHARE_INFO_BYTES
  const U32_MAX: nat := 0xFFFF_FFFF

  // ---- namespaces ----------------------------------------------------------------------------

  /** A version byte and 28 bytes of id. */
  type Namespace = ns: seq<Byte> | |ns| == NS_SIZE witness Repeat(0, NS_SIZE)

  function Repeat(b: Byte, n: nat): (s: seq<Byte>)
    ensures |s| == n && forall i :: 0 <= i < n ==> s[i] == b
  {
    seq(n, _ => b)
  }

  /** `const_v0`: ten bytes of the user's choice behind nineteen zeros. */
  function V0(id: seq<Byte>): Namespace
    requires |id| == 10
  {
    Repeat(0, 19) + id
  }

  /** `const_v255`: one byte behind twenty-eight bytes 255. */
  function V255(id: Byte): Namespace { Repeat(255, 28) + [id] }

  /** The bytes as a big-endian number: the order of namespaces is the order of these. */
  function Value(bytes: seq<Byte>): nat {
    if bytes == [] then 0 else 256 * Value(bytes[..|bytes| - 1]) + bytes[|bytes| - 1]
  }

  lemma {:induction false} ValueInjective(a: seq<Byte>, b: seq<Byte>)
    requires |a| == |b| && Value(a) == Value(b)
    ensures a == b
  {
    if a != [] {
      var n := |a| - 1;
      ValueInjective(a[..n], b[..n]);
      assert a == a[..n] + [a[n]] && b == b[..n] + [b[n]];
    }
  }

  const MAX_PRIMARY_RESERVED: Namespace := V0(Repeat(0, 9) + [255])
  const MIN_SECONDARY_RESERVED: Namespace := V255(0)
  const PARITY_SHARE: Namespace := V255(255)

  predicate IsReserved(ns: Namespace) {
    Value(ns) <= Value(MAX_PRIMARY_RESERVED) || Value(ns) >= Value(MIN_SECONDARY_RESERVED)
  }

  /** Version 0 with 18 leading zero bytes of id, or version 255 with 27 bytes 255. */
  predicate IsValidNamespace(ns: Namespace) {
    || (ns[0] == 0 && forall i :: 1 <= i < 19 ==> ns[i] == 0)
    || (ns[0] == 255 && forall i :: 1 <= i < NS_SIZE - 1 ==> ns[i] == 255)
  }

  /** The valid namespaces are exactly what the two constructors make. */
  lemma ValidNamespaces(ns: Namespace)
    ensures IsValidNamespace(ns) <==> ns == V0(ns[19..]) || ns == V255(ns[28])
    ensures forall id: seq<Byte> :: |id| == 10 ==> IsValidNamespace(V0(id))
    ensures forall id: Byte :: IsValidNamespace(V255(id))
  {
  }

  /** Reserved are exactly the 256 lowest and the 256 highest namespaces: all but the last byte is fixed. */
  lemma ReservedBytes(ns: Namespace)
    ensures IsReserved(ns) <==> ns[..28] == Repeat(0, 28) || ns[..28] == Repeat(255, 28)
  {
    var zeros, tops := Repeat(0, 28), Repeat(255, 28);
    ValueAppend(ns[..28], ns[28]);
    ValueAppend(zeros, 255);
    ValueAppend(tops, 0);
    assert ns == ns[..28] + [ns[28]] && MAX_PRIMARY_RESERVED == zeros + [255] && MIN_SECONDARY_RESERVED == tops + [0];
    ZeroValue(zeros);
    ValueBound(ns[..28], tops);
    if Value(ns[..28]) == 0 { ValueInjective(ns[..28], zeros); }
    if Value(ns[..28]) == Value(tops) { ValueInjective(ns[..28], tops); }
  }

  lemma {:induction false} ZeroValue(a: seq<Byte>)
    requires forall i :: 0 <= i < |a| ==> a[i] == 0
    ensures Value(a) == 0
  {
    if a != [] { ZeroValue(a[..|a| - 1]); }
  }

  lemma ParityIsHighest(ns: Namespace)
    ensures Value(ns) <= Value(PARITY_SHARE)
    ensures IsReserved(PARITY_SHARE)
  {
    ValueBound(ns, PARITY_SHARE);
    ValueBound(MIN_SECONDARY_RESERVED, PARITY_SHARE);
  }

  lemma {:induction false} ValueBound(a: seq<Byte>, top: seq<Byte>)
    requires |a| == |top| && forall i :: 0 <= i < |top| ==> top[i] == 255
    ensures Value(a) <= Value(top)
  {
    if a != [] { ValueBound(a[..|a| - 1], top[..|a| - 1]); }
  }

  // ---- shares --------------------------------------------------------------------------------

  datatype ShareError = InvalidShareSize(len: nat) | InvalidNamespace

  datatype Share = Share(data: seq<Byte>, isParity: bool) {
    ghost predicate Valid() { |data| == SHARE_SIZE }

    function Namespace(): Namespace
      requires Valid()
    {
      if isParity then PARITY_SHARE else data[..NS_SIZE]
    }

    function InfoByte(): Option<Byte>
      requires Valid()
    {
      if isParity then None else Some(data[NS_SIZE])
    }

    /** The length of the whole sequence; present only in its first share. */
    function SequenceLength(): Option<nat>
      requires Valid()
    {
      if !isParity && IsSequenceStart(data[NS_SIZE])
      then Some(Value(data[NS_SIZE + SHARE_INFO_BYTES..NS_SIZE + SHARE_INFO_BYTES + SEQUENCE_LEN_BYTES]))
      else None
    }

    function Payload(): Option<seq<Byte>>
      requires Valid()
    {
      if isParity then None
      else if IsSequenceStart(data[NS_SIZE]) then Some(data[NS_SIZE + SHARE_INFO_BYTES + SEQUENCE_LEN_BYTES..])
      else Some(data[NS_SIZE + SHARE_INFO_BYTES..])
    }
  }

  /** The first 7 bits of an info byte are the version, the last one marks a sequence start. */
  function Version(info: Byte): nat { info / 2 }

  predicate IsSequenceStart(info: Byte) { info % 2 == 1 }

  /** Version and start mark are what the info byte was made of. */
  lemma InfoByteFields(version: nat, start: bool)
    requires version < 128
    ensures var info := 2 * version + if start then 1 else 0;
            info < 256 && Version(info) == version && (IsSequenceStart(info) <==> start)
  {
  }

  function FromRaw(data: seq<Byte>): (r: Result<Share, ShareError>)
    ensures r.Ok? ==> r.value.Valid() && r.value.data == data && !r.value.isParity
    ensures r.Ok? <==> |data| == 512 && (data[..19] == Repeat(0, 19) || data[..28] == Repeat(255, 28))
    ensures |data| == 512 ==> (r.Ok? <==> IsValidNamespace(data[..NS_SIZE]))
    ensures r.Err? ==> r.error == if |data| == 512 then InvalidNamespace else InvalidShareSize(|data|)
  {
    if |data| != SHARE_SIZE then Err(InvalidShareSize(|data|))
    else if !IsValidNamespace(data[..NS_SIZE]) then Err(InvalidNamespace)
    else Ok(Share(data, false))
  }

  /**
   Shares in every reserved namespace parse: those of transactions, payments for blobs and padding
   (28 zeros and then 1, 4 or 255), and those of tail padding (28 bytes 255 and then 254).
   */
  lemma ReservedSharesParse(data: seq<Byte>)
    requires |data| == 512 && (data[..28] == Repeat(0, 28) || data[..28] == Repeat(255, 28))
    ensures FromRaw(data).Ok? && FromRaw(data).value.Namespace() == data[..29] && IsReserved(data[..29])
  {
    ReservedBytes(data[..29]);
    assert data[..29][..28] == data[..28] && data[..19] == data[..28][..19];
    assert Repeat(0, 28)[..19] == Repeat(0, 19);
  }

  function ParityFromRaw(data: seq<Byte>): (r: Result<Share, ShareError>)
    ensures r.Ok? ==> r.value.Valid() && r.value.data == data && r.value.isParity
    ensures r.Ok? <==> |data| == 512
  {
    if |data| != SHARE_SIZE then Err(InvalidShareSize(|data|)) else Ok(Share(data, true))
  }

  ghost predicate AllValid(shares: seq<Share>) { forall i :: 0 <= i < |shares| ==> shares[i].Valid() }

  // ---- numbers in four bytes -----------------------------------------------------------------

  function U32Bytes(n: nat): (bytes: seq<Byte>)
    requires n <= U32_MAX
    ensures |bytes| == SEQUENCE_LEN_BYTES
  {
    [n / 0x100_0000, n / 0x1_0000 % 256, n / 256 % 256, n % 256]
  }

  lemma ValueAppend(bytes: seq<Byte>, b: Byte)
    ensures Value(bytes + [b]) == 256 * Value(bytes) + b
  {
    assert (bytes + [b])[..|bytes|] == bytes;
  }

  lemma Digits(n: nat)
    ensures n == 256 * (256 * (256 * (n / 0x100_0000) + n / 0x1_0000 % 256) + n / 256 % 256) + n % 256
  {
    assert n / 256 / 256 == n / 0x1_0000 && n / 0x1_0000 / 256 == n / 0x100_0000;
  }

  lemma U32RoundTrip(n: nat)
    requires n <= U32_MAX
    ensures Value(U32Bytes(n)) == n
  {
    var a: Byte, b: Byte, c: Byte, d: Byte := n / 0x100_0000, n / 0x1_0000 % 256, n / 256 % 256, n % 256;
    ValueAppend([], a);
    ValueAppend([a], b);
    ValueAppend([a, b], c);
    ValueAppend([a, b, c], d);
    assert [] + [a] == [a] && [a] + [b] == [a, b] && [a, b] + [c] == [a, b, c] && [a, b, c] + [d] == U32Bytes(n);
    assert Value([]) == 0;
    Digits(n);
  }
}
