/**
 The validated extended data square and the lookup of a namespace in it
 (types/src/eds.rs, `new` and `get_namespace_data`).
 */
module NamespaceLookup {
  import opened Wrappers
  import opened Shares
  import M = MerkleProofs
  import D = DataSquares
  import H = DataAvailabilityHeaders

  const MIN_SHARES := 4

  datatype Eds = Eds(dataSquare: seq<Share>, squareWidth: nat)

  datatype EdsError =
    | TooFewShares
    | TooManyShares
    | EdsInvalidDimensions
    | InvalidShare(error: ShareError)
    | NotSorted(axis: D.Axis)
    | CodecError
    | ZeroWidthPanic
    | ZeroBlockHeight

  // ---- validation ----------------------------------------------------------------------------

  /** The upper left quadrant holds data, the others parity. */
  predicate IsOdsSquare(row: nat, column: nat, width: nat) { row < width / 2 && column < width / 2 }

  function ParseCell(raw: seq<seq<Byte>>, width: nat, row: nat, column: nat): (r: Result<Share, ShareError>)
    requires |raw| == width * width && row < width && column < width
    ensures r.Ok? ==> r.value.Valid() && (r.value.isParity <==> width <= 2 * row + 1 || width <= 2 * column + 1)
    ensures r.Ok? ==> (D.FlattenIndexInRange(row, column, width); r.value.data == raw[row * width + column])
  {
    D.FlattenIndexInRange(row, column, width);
    var bytes := raw[D.FlattenIndex(row, column, width)];
    if IsOdsSquare(row, column, width) then FromRaw(bytes) else ParityFromRaw(bytes)
  }

  /** The parsed cells along an axis. */
  function Cells(raw: seq<seq<Byte>>, width: nat, axis: D.Axis): (cells: seq<Result<Share, ShareError>>)
    requires |raw| == width * width && axis.index < width
    ensures |cells| == width
  {
    seq(width, t requires 0 <= t < width => ParseCell(raw, width, D.CellRow(axis, t), D.CellColumn(axis, t)))
  }

  ghost predicate AllOk(cells: seq<Result<Share, ShareError>>) {
    forall t :: 0 <= t < |cells| ==> cells[t].Ok? && cells[t].value.Valid()
  }

  ghost function Values(cells: seq<Result<Share, ShareError>>): (shares: seq<Share>)
    requires AllOk(cells)
    ensures |shares| == |cells| && AllValid(shares)
    ensures forall t :: 0 <= t < |cells| ==> shares[t] == cells[t].value
  {
    seq(|cells|, t requires 0 <= t < |cells| => cells[t].value)
  }

  ghost predicate Parses(raw: seq<seq<Byte>>, width: nat, axis: D.Axis)
    requires |raw| == width * width && axis.index < width
  {
    AllOk(Cells(raw, width, axis))
  }

  ghost function AxisShares(raw: seq<seq<Byte>>, width: nat, axis: D.Axis): (shares: seq<Share>)
    requires |raw| == width * width && axis.index < width && Parses(raw, width, axis)
    ensures |shares| == width && AllValid(shares)
  {
    Values(Cells(raw, width, axis))
  }

  ghost predicate SortedByNamespace(shares: seq<Share>)
    requires AllValid(shares)
  {
    forall i, j :: 0 <= i < j < |shares| ==> Value(shares[i].Namespace()) <= Value(shares[j].Namespace())
  }

  /** Along this axis all shares parse and their namespaces do not decrease. */
  ghost predicate GoodAxis(raw: seq<seq<Byte>>, width: nat, axis: D.Axis)
    requires |raw| == width * width && axis.index < width
  {
    Parses(raw, width, axis) && SortedByNamespace(AxisShares(raw, width, axis))
  }

  ghost predicate IsWidth(width: nat, count: nat, maxWidth: nat) {
    && width * width == count && 4 <= count <= maxWidth * maxWidth
    && width <= 65535 && M.IsPowerOfTwo(width)
  }

  /** Exactly one bit set. */
  function CountOnes(n: nat): nat { if n == 0 then 0 else n % 2 + CountOnes(n / 2) }

  lemma {:induction false} OneBitIsPower(n: nat)
    ensures CountOnes(n) == 1 <==> M.IsPowerOfTwo(n)
  {
    if n > 1 {
      OneBitIsPower(n / 2);
      if n % 2 == 1 { SomeBit(n / 2); }
    }
  }

  lemma {:induction false} SomeBit(n: nat)
    ensures n > 0 ==> CountOnes(n) > 0
  {
    if n > 0 { SomeBit(n / 2); }
  }

  /** Walks along parsed cells, checking each share against the one before. */
  method CheckCells(cells: seq<Result<Share, ShareError>>, axis: D.Axis) returns (r: Result<seq<Share>, EdsError>)
    requires forall t :: 0 <= t < |cells| && cells[t].Ok? ==> cells[t].value.Valid()
    ensures r.Ok? <==> AllOk(cells) && SortedByNamespace(Values(cells))
    ensures r.Ok? ==> r.value == Values(cells)
  {
    var shares: seq<Share> := [];
    for t := 0 to |cells|
      invariant |shares| == t && AllValid(shares) && SortedByNamespace(shares)
      invariant forall k :: 0 <= k < t ==> cells[k] == Ok(shares[k])
    {
      if cells[t].Err? {
        return Err(InvalidShare(cells[t].error));
      }
      var share := cells[t].value;
      if t > 0 && Value(share.Namespace()) < Value(shares[t - 1].Namespace()) {
        Unsorted(cells, t);
        return Err(NotSorted(axis));
      }
      SortedAppend(shares, share);
      shares := shares + [share];
    }
    assert shares == Values(cells);
    r := Ok(shares);
  }

  method CheckAxis(raw: seq<seq<Byte>>, width: nat, axis: D.Axis) returns (r: Result<seq<Share>, EdsError>)
    requires |raw| == width * width && axis.index < width
    ensures r.Ok? <==> GoodAxis(raw, width, axis)
    ensures r.Ok? ==> r.value == AxisShares(raw, width, axis)
  {
    r := CheckCells(Cells(raw, width, axis), axis);
  }

  lemma SortedAppend(shares: seq<Share>, share: Share)
    requires AllValid(shares) && SortedByNamespace(shares) && share.Valid()
    requires shares != [] ==> Value(shares[|shares| - 1].Namespace()) <= Value(share.Namespace())
    ensures AllValid(shares + [share]) && SortedByNamespace(shares + [share])
  {
    forall i, j | 0 <= i < j < |shares| + 1
      ensures Value((shares + [share])[i].Namespace()) <= Value((shares + [share])[j].Namespace())
    {
      var last := |shares| - 1;
      if j == |shares| && i < last {
        assert Value(shares[i].Namespace()) <= Value(shares[last].Namespace());
      }
    }
  }

  /** Two neighbours out of order spoil the axis they lie on. */
  lemma Unsorted(cells: seq<Result<Share, ShareError>>, t: nat)
    requires 0 < t < |cells| && cells[t - 1].Ok? && cells[t].Ok?
    requires cells[t - 1].value.Valid() && cells[t].value.Valid()
    requires Value(cells[t].value.Namespace()) < Value(cells[t - 1].value.Namespace())
    ensures !(AllOk(cells) && SortedByNamespace(Values(cells)))
  {
    if AllOk(cells) {
      assert Values(cells)[t - 1] == cells[t - 1].value && Values(cells)[t] == cells[t].value;
    }
  }

  /** `eds` is made of the shares of `raw`, and every row and column of it is good. */
  ghost predicate IsSquareOf(eds: Eds, raw: seq<seq<Byte>>) {
    var w := eds.squareWidth;
    && |raw| == w * w == |eds.dataSquare|
    && AxesGood(raw, w)
    && (forall i: nat :: i < w ==> Row(eds, i) == AxisShares(raw, w, D.Row(i)))
  }

  function Row(eds: Eds, i: nat): seq<Share>
    requires |eds.dataSquare| == eds.squareWidth * eds.squareWidth && i < eds.squareWidth
  {
    RowEnds(i, eds.squareWidth);
    eds.dataSquare[i * eds.squareWidth..(i + 1) * eds.squareWidth]
  }

  lemma RowEnds(i: nat, width: nat)
    requires i < width
    ensures i * width + width == (i + 1) * width <= width * width
  {
    D.FlattenIndexInRange(i, width - 1, width);
  }

  ghost predicate AxesGood(raw: seq<seq<Byte>>, width: nat)
    requires |raw| == width * width
  {
    forall i: nat :: i < width ==> GoodAxis(raw, width, D.Row(i)) && GoodAxis(raw, width, D.Column(i))
  }

  /**
   `new`: accepts exactly the shares that form a square of a legal width in which every share
   parses and namespaces do not decrease along any row or column.
   */
  method New(raw: seq<seq<Byte>>, maxWidth: nat) returns (r: Result<Eds, EdsError>)
    ensures r.Ok? ==> IsWidth(r.value.squareWidth, |raw|, maxWidth) && IsSquareOf(r.value, raw)
    ensures r.Err? ==> forall eds: Eds :: !(IsWidth(eds.squareWidth, |raw|, maxWidth) && IsSquareOf(eds, raw))
    ensures forall w: nat :: IsWidth(w, |raw|, maxWidth) ==> (r.Ok? <==> AxesGood(raw, w))
    ensures |raw| < 4 ==> r == Err(TooFewShares)
    ensures 4 <= |raw| && maxWidth * maxWidth < |raw| ==> r == Err(TooManyShares)
  {
    if |raw| < MIN_SHARES {
      return Err(TooFewShares);
    }
    if |raw| > maxWidth * maxWidth {
      return Err(TooManyShares);
    }
    var width := D.SquareRoot(|raw|);
    D.RootUnique(|raw|);
    OneBitIsPower(width);
    if width * width != |raw| || width > H.U16_MAX || CountOnes(width) != 1 {
      return Err(EdsInvalidDimensions);
    }
    var columns := CheckColumns(raw, width);
    if columns.Err? {
      return Err(columns.error);
    }
    r := CheckRows(raw, width);
  }

  method CheckColumns(raw: seq<seq<Byte>>, width: nat) returns (r: Result<(), EdsError>)
    requires |raw| == width * width
    ensures r.Ok? <==> forall i: nat :: i < width ==> GoodAxis(raw, width, D.Column(i))
  {
    for column := 0 to width
      invariant forall i: nat :: i < column ==> GoodAxis(raw, width, D.Column(i))
    {
      var checked := CheckAxis(raw, width, D.Column(column));
      if checked.Err? {
        assert !GoodAxis(raw, width, D.Column(column));
        return Err(checked.error);
      }
    }
    r := Ok(());
  }

  method CheckRows(raw: seq<seq<Byte>>, width: nat) returns (r: Result<Eds, EdsError>)
    requires |raw| == width * width
    ensures r.Ok? <==> forall i: nat :: i < width ==> GoodAxis(raw, width, D.Row(i))
    ensures r.Ok? ==> r.value.squareWidth == width && |r.value.dataSquare| == width * width
    ensures r.Ok? ==> forall i: nat :: i < width ==> Row(r.value, i) == AxisShares(raw, width, D.Row(i))
  {
    var square: seq<Share> := [];
    for row := 0 to width
      invariant |square| == row * width
      invariant forall i: nat :: i < row ==> GoodAxis(raw, width, D.Row(i)) && HoldsRow(square, width, i, raw)
    {
      var checked := CheckAxis(raw, width, D.Row(row));
      if checked.Err? {
        assert !GoodAxis(raw, width, D.Row(row));
        return Err(checked.error);
      }
      RowAppended(square, width, row, raw, checked.value);
      square := square + checked.value;
    }
    var eds := Eds(square, width);
    forall i: nat | i < width ensures Row(eds, i) == AxisShares(raw, width, D.Row(i)) {
      assert HoldsRow(square, width, i, raw);
    }
    r := Ok(eds);
  }

  ghost predicate HoldsRow(square: seq<Share>, width: nat, i: nat, raw: seq<seq<Byte>>)
    requires |raw| == width * width && i < width && GoodAxis(raw, width, D.Row(i))
  {
    (i + 1) * width <= |square| && i * width <= (i + 1) * width
    && square[i * width..(i + 1) * width] == AxisShares(raw, width, D.Row(i))
  }

  lemma RowAppended(square: seq<Share>, width: nat, row: nat, raw: seq<seq<Byte>>, shares: seq<Share>)
    requires |raw| == width * width && row < width && |square| == row * width
    requires forall i: nat :: i < row ==> GoodAxis(raw, width, D.Row(i)) && HoldsRow(square, width, i, raw)
    requires GoodAxis(raw, width, D.Row(row)) && shares == AxisShares(raw, width, D.Row(row))
    ensures |square + shares| == (row + 1) * width
    ensures forall i: nat :: i < row + 1 ==> GoodAxis(raw, width, D.Row(i)) && HoldsRow(square + shares, width, i, raw)
  {
    RowEnds(row, width);
    forall i: nat | i < row + 1 ensures GoodAxis(raw, width, D.Row(i)) && HoldsRow(square + shares, width, i, raw) {
      RowEnds(i, width);
      if i < row {
        assert HoldsRow(square, width, i, raw);
        assert (square + shares)[i * width..(i + 1) * width] == square[i * width..(i + 1) * width];
      } else {
        assert (square + shares)[row * width..(row + 1) * width] == shares;
      }
    }
  }

  // ---- what validation guarantees ------------------------------------------------------------

  ghost predicate SortedRow(row: seq<Share>) { AllValid(row) && SortedByNamespace(row) }

  /** The rows of a square as `new` returns it, described without the raw shares. */
  ghost predicate ValidRows(rows: seq<seq<Share>>) {
    && 2 <= |rows|
    && (forall i :: 0 <= i < |rows| ==> |rows[i]| == |rows| && SortedRow(rows[i]))
    && (forall i :: 0 <= i < |rows| ==> FirstNs(rows[0]) <= FirstNs(rows[i]))
    && rows[0][|rows| - 1].isParity
  }

  ghost function FirstNs(row: seq<Share>): nat
    requires row != [] && AllValid(row)
  {
    Value(row[0].Namespace())
  }

  ghost function Rows(eds: Eds): (rows: seq<seq<Share>>)
    requires |eds.dataSquare| == eds.squareWidth * eds.squareWidth
    ensures |rows| == eds.squareWidth
    ensures forall i :: 0 <= i < |rows| ==> rows[i] == Row(eds, i)
  {
    seq(eds.squareWidth, i requires 0 <= i < eds.squareWidth => Row(eds, i))
  }

  ghost predicate ValidSquare(eds: Eds) {
    |eds.dataSquare| == eds.squareWidth * eds.squareWidth && ValidRows(Rows(eds))
  }

  /** What `new` accepts: sorted rows, the least namespace first, and parity on the right. */
  lemma AcceptedSquareIsValid(eds: Eds, raw: seq<seq<Byte>>, maxWidth: nat)
    requires IsWidth(eds.squareWidth, |raw|, maxWidth) && IsSquareOf(eds, raw)
    ensures ValidSquare(eds)
  {
    var w, rows := eds.squareWidth, Rows(eds);
    assert w < 2 ==> w * w < MIN_SHARES;
    forall i: nat | i < w ensures |rows[i]| == w && SortedRow(rows[i]) {
      RowAccepted(eds, raw, i);
    }
    forall i: nat | i < w ensures FirstNs(rows[0]) <= FirstNs(rows[i]) {
      FirstColumnAccepted(eds, raw, i);
    }
    RowAccepted(eds, raw, 0);
    assert Cells(raw, w, D.Row(0))[w - 1] == ParseCell(raw, w, 0, w - 1);
  }

  lemma RowAccepted(eds: Eds, raw: seq<seq<Byte>>, i: nat)
    requires IsSquareOf(eds, raw) && i < eds.squareWidth
    ensures Parses(raw, eds.squareWidth, D.Row(i)) && Row(eds, i) == AxisShares(raw, eds.squareWidth, D.Row(i))
    ensures |Row(eds, i)| == eds.squareWidth && SortedRow(Row(eds, i))
  {
    assert GoodAxis(raw, eds.squareWidth, D.Row(i));
  }

  lemma FirstColumnAccepted(eds: Eds, raw: seq<seq<Byte>>, i: nat)
    requires IsSquareOf(eds, raw) && i < eds.squareWidth
    requires SortedRow(Row(eds, 0)) && SortedRow(Row(eds, i)) && Row(eds, 0) != [] && Row(eds, i) != []
    ensures FirstNs(Row(eds, 0)) <= FirstNs(Row(eds, i))
  {
    var w := eds.squareWidth;
    var column := D.Column(0);
    assert GoodAxis(raw, w, column);
    RowAccepted(eds, raw, 0);
    RowAccepted(eds, raw, i);
    assert Cells(raw, w, column)[0] == Cells(raw, w, D.Row(0))[0];
    assert Cells(raw, w, column)[i] == Cells(raw, w, D.Row(i))[0];
    assert AxisShares(raw, w, column)[0] == Row(eds, 0)[0];
    assert AxisShares(raw, w, column)[i] == Row(eds, i)[0];
  }

  // ---- lookup --------------------------------------------------------------------------------

  /** The namespaces a row root covers. */
  datatype NsRange = NsRange(min: nat, max: nat) {
    predicate Contains(ns: nat) { min <= ns <= max }
  }

  /**
   The namespace range of a namespaced Merkle tree's root. The parity namespace does not count
   towards the maximum of a node whose left child has other namespaces.
   */
  ghost function RootRange(row: seq<Share>): NsRange
    requires row != [] && AllValid(row)
    decreases |row|
  {
    if |row| == 1 then NsRange(Value(row[0].Namespace()), Value(row[0].Namespace()))
    else
      var k := M.RfcSplit(|row|);
      var left, right := RootRange(row[..k]), RootRange(row[k..]);
      var parity := Value(PARITY_SHARE);
      NsRange(left.min,
              if left.min == parity then parity
              else if right.min == parity then left.max
              else if left.max < right.max then right.max else left.max)
  }

  lemma {:induction false} RootRangeStarts(row: seq<Share>)
    requires row != [] && AllValid(row)
    ensures RootRange(row).min == Value(row[0].Namespace())
    decreases |row|
  {
    if |row| > 1 { RootRangeStarts(row[..M.RfcSplit(|row|)]); }
  }

  /** A namespace that occurs in a sorted row, other than the parity one, is in the root's range. */
  lemma {:induction false} RootRangeCovers(row: seq<Share>, i: nat)
    requires AllValid(row) && SortedByNamespace(row) && i < |row|
    requires Value(row[i].Namespace()) != Value(PARITY_SHARE)
    ensures RootRange(row).Contains(Value(row[i].Namespace()))
    decreases |row|
  {
    RootRangeStarts(row);
    if |row| > 1 {
      var k := M.RfcSplit(|row|);
      RootRangeStarts(row[..k]);
      RootRangeStarts(row[k..]);
      ParityIsHighest(row[i].Namespace());
      ParityIsHighest(row[0].Namespace());
      if i < k {
        RootRangeCovers(row[..k], i);
      } else {
        RootRangeCovers(row[k..], i - k);
      }
    }
  }

  /** The parity namespace is in the range only of rows that consist of it entirely. */
  lemma {:induction false} RootRangeOfParity(row: seq<Share>)
    requires row != [] && AllValid(row) && SortedByNamespace(row)
    ensures RootRange(row).Contains(Value(PARITY_SHARE)) <==> Value(row[0].Namespace()) == Value(PARITY_SHARE)
    decreases |row|
  {
    RootRangeStarts(row);
    ParityIsHighest(row[0].Namespace());
    if |row| > 1 {
      var k := M.RfcSplit(|row|);
      RootRangeStarts(row[..k]);
      RootRangeStarts(row[k..]);
      RootRangeOfParity(row[..k]);
      RootRangeOfParity(row[k..]);
      ParityIsHighest(row[k].Namespace());
    }
  }

  function InNamespace(ns: nat): Share -> bool {
    (s: Share) => |s.data| == SHARE_SIZE && Value(s.Namespace()) == ns
  }

  /** The shares of a namespace, in order. */
  function Filter(shares: seq<Share>, ns: nat): seq<Share> { Filtered(shares, InNamespace(ns)) }

  lemma {:induction false} FilterNone(shares: seq<Share>, ns: nat)
    requires AllValid(shares) && forall i :: 0 <= i < |shares| ==> Value(shares[i].Namespace()) != ns
    ensures Filter(shares, ns) == []
  {
    if shares != [] { FilterNone(shares[..|shares| - 1], ns); }
  }

  /** One row of the answer. */
  datatype RowData = RowData(row: nat, shares: seq<Share>)

  /** What the lookup collects from the first `n` rows, given the shares to find in each. */
  ghost function Collected(found: seq<seq<Share>>, ns: nat, roots: seq<NsRange>, n: nat): seq<RowData>
    requires n <= |found| && n <= |roots|
  {
    if n == 0 then []
    else
      var before := Collected(found, ns, roots, n - 1);
      if roots[n - 1].Contains(ns) then before + [RowData(n - 1, found[n - 1])] else before
  }

  ghost predicate AllSorted(rows: seq<seq<Share>>) { forall i :: 0 <= i < |rows| ==> SortedRow(rows[i]) }

  /** The shares of a namespace in each row. */
  ghost function FilterRows(rows: seq<seq<Share>>, ns: nat): (found: seq<seq<Share>>)
    requires AllSorted(rows)
    ensures |found| == |rows| && forall i :: 0 <= i < |rows| ==> found[i] == Filter(rows[i], ns)
  {
    seq(|rows|, i requires 0 <= i < |rows| => Filter(rows[i], ns))
  }

  /** From a larger namespace on, a sorted row holds none of the smaller one. */
  lemma NothingFurther(row: seq<Share>, column: nat, ns: nat)
    requires AllValid(row) && SortedByNamespace(row) && column < |row| && Value(row[column].Namespace()) > ns
    ensures Filter(row, ns) == Filter(row[..column], ns)
  {
    FilterNone(row[column..], ns);
    FilteredConcat(row[..column], row[column..], InNamespace(ns));
    assert row == row[..column] + row[column..];
  }

  /** Scans a sorted row up to the first larger namespace. */
  method ScanRow(row: seq<Share>, ns: nat) returns (shares: seq<Share>)
    requires AllValid(row) && SortedByNamespace(row)
    ensures shares == Filter(row, ns)
  {
    shares := [];
    for column := 0 to |row|
      invariant shares == Filter(row[..column], ns)
    {
      var share := row[column];
      assert row[..column + 1][..column] == row[..column];
      if Value(share.Namespace()) == ns {
        shares := shares + [share];
      } else if Value(share.Namespace()) > ns {
        NothingFurther(row, column, ns);
        return;
      }
    }
    assert row[..|row|] == row;
  }

  method RowShares(eds: Eds, row: nat, ns: nat) returns (shares: seq<Share>)
    requires ValidSquare(eds) && row < eds.squareWidth
    ensures shares == FilterRows(Rows(eds), ns)[row]
  {
    assert SortedRow(Rows(eds)[row]);
    shares := ScanRow(Row(eds, row), ns);
  }

  /** The rows to return: those whose root covers the namespace, as far as there are roots. */
  ghost function Expected(eds: Eds, ns: nat, roots: seq<NsRange>): seq<RowData>
    requires ValidSquare(eds)
  {
    Collected(FilterRows(Rows(eds), ns), ns, roots, if |roots| < eds.squareWidth then |roots| else eds.squareWidth)
  }

  /**
   `get_namespace_data`. For any row roots it skips the rows whose root does not cover the
   namespace, stops when the roots run out, and fails only for height 0 with something to return.
   For the square's own roots the rows together are the square filtered by the namespace.
   */
  method GetNamespaceData(eds: Eds, ns: nat, roots: seq<NsRange>, height: nat)
    returns (r: Result<seq<RowData>, EdsError>)
    requires ValidSquare(eds)
    ensures r.Err? ==> r.error == ZeroBlockHeight && height == 0 && Expected(eds, ns, roots) != []
    ensures r.Ok? ==> r.value == Expected(eds, ns, roots) && (height > 0 || r.value == [])
    ensures AllValid(eds.dataSquare)
    ensures r.Ok? && AreOwnRoots(Rows(eds), roots) ==>
              (Joined(r.value) == Filter(eds.dataSquare, ns)
               <==> (ns == Value(PARITY_SHARE) ==> FirstNs(Rows(eds)[0]) == Value(PARITY_SHARE)))
  {
    AllSharesValid(eds);
    r := CollectRows(eds, ns, roots, height);
    if AreOwnRoots(Rows(eds), roots) {
      LookupIsFilter(eds, ns, roots);
    }
  }

  lemma AllSharesValid(eds: Eds)
    requires ValidSquare(eds)
    ensures AllValid(eds.dataSquare)
  {
    var w := eds.squareWidth;
    FlattenRows(eds, w);
    assert eds.dataSquare[..w * w] == eds.dataSquare;
    FlattenValid(Rows(eds), w);
  }

  /** The loop over the rows. */
  method CollectRows(eds: Eds, ns: nat, roots: seq<NsRange>, height: nat)
    returns (r: Result<seq<RowData>, EdsError>)
    requires ValidSquare(eds)
    ensures r.Err? ==> r.error == ZeroBlockHeight && height == 0 && Expected(eds, ns, roots) != []
    ensures r.Ok? ==> r.value == Expected(eds, ns, roots) && (height > 0 || r.value == [])
  {
    var rows: seq<RowData> := [];
    var w := eds.squareWidth;
    ghost var found := FilterRows(Rows(eds), ns);
    for row := 0 to w
      invariant row <= |roots| && rows == Collected(found, ns, roots, row)
      invariant height > 0 || rows == []
    {
      if row == |roots| {
        break;
      }
      if !roots[row].Contains(ns) {
        continue;
      }
      var shares := RowShares(eds, row, ns);
      if height == 0 {
        Grows(found, ns, roots, row + 1, if |roots| < w then |roots| else w);
        return Err(ZeroBlockHeight);
      }
      rows := rows + [RowData(row, shares)];
    }
    r := Ok(rows);
  }

  lemma {:induction false} Grows(found: seq<seq<Share>>, ns: nat, roots: seq<NsRange>, m: nat, n: nat)
    requires m <= n <= |found| && n <= |roots|
    ensures Collected(found, ns, roots, m) != [] ==> Collected(found, ns, roots, n) != []
  {
    if m < n { Grows(found, ns, roots, m, n - 1); }
  }

  ghost function Joined(rows: seq<RowData>): seq<Share> {
    if rows == [] then [] else Joined(rows[..|rows| - 1]) + rows[|rows| - 1].shares
  }

  lemma JoinedAppend(rows: seq<RowData>, row: RowData)
    ensures Joined(rows + [row]) == Joined(rows) + row.shares
  {
    assert (rows + [row])[..|rows|] == rows;
  }

  /** The row roots of the square's own data availability header. */
  ghost predicate AreOwnRoots(rows: seq<seq<Share>>, roots: seq<NsRange>)
    requires ValidRows(rows)
  {
    |roots| == |rows| && forall i :: 0 <= i < |roots| ==> roots[i] == RootRange(rows[i])
  }

  /** A row whose root does not cover the namespace has no share of it. */
  lemma SkippedRowIsEmpty(row: seq<Share>, ns: nat)
    requires row != [] && SortedRow(row) && !RootRange(row).Contains(ns)
    requires ns == Value(PARITY_SHARE) ==> FirstNs(row) == Value(PARITY_SHARE)
    ensures Filter(row, ns) == []
  {
    if ns == Value(PARITY_SHARE) {
      RootRangeOfParity(row);
    } else {
      forall k: nat | k < |row| ensures Value(row[k].Namespace()) != ns {
        if Value(row[k].Namespace()) == ns { RootRangeCovers(row, k); }
      }
      FilterNone(row, ns);
    }
  }

  /** The first `n` rows one after another. */
  ghost function Flatten(rows: seq<seq<Share>>, n: nat): seq<Share>
    requires n <= |rows|
  {
    if n == 0 then [] else Flatten(rows, n - 1) + rows[n - 1]
  }

  lemma {:induction false} FlattenRows(eds: Eds, n: nat)
    requires |eds.dataSquare| == eds.squareWidth * eds.squareWidth && n <= eds.squareWidth
    ensures n * eds.squareWidth <= |eds.dataSquare|
    ensures Flatten(Rows(eds), n) == eds.dataSquare[..n * eds.squareWidth]
  {
    if n > 0 {
      FlattenRows(eds, n - 1);
      AdjoinRow(eds, n - 1);
    }
  }

  lemma AdjoinRow(eds: Eds, i: nat)
    requires |eds.dataSquare| == eds.squareWidth * eds.squareWidth && i < eds.squareWidth
    ensures i * eds.squareWidth <= (i + 1) * eds.squareWidth <= |eds.dataSquare|
    ensures eds.dataSquare[..(i + 1) * eds.squareWidth] == eds.dataSquare[..i * eds.squareWidth] + Rows(eds)[i]
  {
    RowEnds(i, eds.squareWidth);
    Adjoin(eds.dataSquare, i * eds.squareWidth, (i + 1) * eds.squareWidth);
  }

  lemma Adjoin<T>(s: seq<T>, i: nat, j: nat)
    requires i <= j <= |s|
    ensures s[..j] == s[..i] + s[i..j]
  {
  }

  lemma {:induction false} FlattenValid(rows: seq<seq<Share>>, n: nat)
    requires AllSorted(rows) && n <= |rows|
    ensures AllValid(Flatten(rows, n))
  {
    if n > 0 {
      FlattenValid(rows, n - 1);
      assert SortedRow(rows[n - 1]);
    }
  }

  /** Filtering row by row filters the whole. */
  lemma {:induction false} FilterFlattened(rows: seq<seq<Share>>, found: seq<seq<Share>>, ns: nat, n: nat)
    requires n <= |rows| == |found| && forall i :: 0 <= i < |rows| ==> found[i] == Filter(rows[i], ns)
    ensures Filter(Flatten(rows, n), ns) == Flatten(found, n)
  {
    if n > 0 {
      FilterFlattened(rows, found, ns, n - 1);
      FilteredConcat(Flatten(rows, n - 1), rows[n - 1], InNamespace(ns));
    }
  }

  /** Skipping rows loses nothing if nothing is to be found in them. */
  lemma {:induction false} CollectedAll(found: seq<seq<Share>>, ns: nat, roots: seq<NsRange>, n: nat)
    requires |roots| == |found| && n <= |found|
    requires forall i :: 0 <= i < |found| && !roots[i].Contains(ns) ==> found[i] == []
    ensures Joined(Collected(found, ns, roots, n)) == Flatten(found, n)
  {
    if n > 0 {
      CollectedAll(found, ns, roots, n - 1);
      JoinedAppend(Collected(found, ns, roots, n - 1), RowData(n - 1, found[n - 1]));
    }
  }

  /** Skipping a first row in which something is to be found does lose it. */
  lemma {:induction false} CollectedFewer(found: seq<seq<Share>>, ns: nat, roots: seq<NsRange>, n: nat)
    requires |roots| == |found| && 1 <= n <= |found|
    requires !roots[0].Contains(ns) && found[0] != []
    ensures |Joined(Collected(found, ns, roots, n))| < |Flatten(found, n)|
  {
    if n > 1 {
      CollectedFewer(found, ns, roots, n - 1);
      JoinedAppend(Collected(found, ns, roots, n - 1), RowData(n - 1, found[n - 1]));
    } else {
      assert Collected(found, ns, roots, 0) == [] && Collected(found, ns, roots, 1) == [];
      assert Flatten(found, 0) == [];
    }
  }

  /**
   The lookup against the square's own row roots finds exactly the shares of the namespace, in
   row-major order - for the parity namespace if and only if the whole square is parity.
   */
  lemma LookupIsFilter(eds: Eds, ns: nat, roots: seq<NsRange>)
    requires ValidSquare(eds) && AreOwnRoots(Rows(eds), roots)
    ensures AllValid(eds.dataSquare)
    ensures Joined(Collected(FilterRows(Rows(eds), ns), ns, roots, eds.squareWidth)) == Filter(eds.dataSquare, ns)
            <==> (ns == Value(PARITY_SHARE) ==> FirstNs(Rows(eds)[0]) == Value(PARITY_SHARE))
  {
    var w, rows := eds.squareWidth, Rows(eds);
    FlattenRows(eds, w);
    assert eds.dataSquare[..w * w] == eds.dataSquare;
    FlattenValid(rows, w);
    FilterFlattened(rows, FilterRows(rows, ns), ns, w);
    LookupInRows(rows, ns, roots);
  }

  lemma LookupInRows(rows: seq<seq<Share>>, ns: nat, roots: seq<NsRange>)
    requires ValidRows(rows) && AreOwnRoots(rows, roots)
    ensures var found := FilterRows(rows, ns);
            Joined(Collected(found, ns, roots, |rows|)) == Flatten(found, |rows|)
            <==> (ns == Value(PARITY_SHARE) ==> FirstNs(rows[0]) == Value(PARITY_SHARE))
  {
    var found := FilterRows(rows, ns);
    if ns == Value(PARITY_SHARE) && FirstNs(rows[0]) != ns {
      FirstRowMissed(rows, roots);
      CollectedFewer(found, ns, roots, |rows|);
    } else {
      forall i | 0 <= i < |found| && !roots[i].Contains(ns) ensures found[i] == [] {
        ParityIsHighest(rows[i][0].Namespace());
        SkippedRowIsEmpty(rows[i], ns);
      }
      CollectedAll(found, ns, roots, |rows|);
    }
  }

  lemma FirstRowMissed(rows: seq<seq<Share>>, roots: seq<NsRange>)
    requires ValidRows(rows) && AreOwnRoots(rows, roots) && FirstNs(rows[0]) != Value(PARITY_SHARE)
    ensures !roots[0].Contains(Value(PARITY_SHARE))
    ensures Filter(rows[0], Value(PARITY_SHARE)) != []
  {
    assert rows[0][|rows| - 1].Namespace() == PARITY_SHARE;
    RootRangeOfParity(rows[0]);
  }
}
