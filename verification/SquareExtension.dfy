/**
 The whole of `from_ods` (types/src/eds.rs): the extension of the original square followed by the
 validation of the result. For a codec that keeps the size of shares, validation has nothing to
 add about the parity: the call succeeds exactly on legal and sorted original squares.
 */
module SquareExtensions {
  import opened Wrappers
  import opened Shares
  import opened NamespaceLookup
  import D = DataSquares

  type Codec = D.Codec<seq<Byte>>

  ghost predicate AllSized(data: seq<seq<Byte>>) { forall i :: 0 <= i < |data| ==> |data[i]| == SHARE_SIZE }

  /** The parity of shares is a share. */
  ghost predicate KeepsSize(c: Codec) {
    forall j: nat, data: seq<seq<Byte>> :: AllSized(data) ==> |D.Parity(c, j, data)| == SHARE_SIZE
  }

  function OdsCell(ods: seq<seq<Byte>>, k: nat, row: nat, column: nat): Result<Share, ShareError>
    requires |ods| == k * k && row < k && column < k
  {
    D.FlattenIndexInRange(row, column, k);
    FromRaw(ods[D.FlattenIndex(row, column, k)])
  }

  /** The cells of a row or a column of the original square. */
  function OdsCells(ods: seq<seq<Byte>>, k: nat, axis: D.Axis): (cells: seq<Result<Share, ShareError>>)
    requires |ods| == k * k && axis.index < k
    ensures |cells| == k
  {
    seq(k, t requires 0 <= t < k => OdsCell(ods, k, D.CellRow(axis, t), D.CellColumn(axis, t)))
  }

  /** Along this axis of the original square all shares parse and namespaces do not decrease. */
  ghost predicate OdsAxisGood(ods: seq<seq<Byte>>, k: nat, axis: D.Axis)
    requires |ods| == k * k && axis.index < k
  {
    var cells := OdsCells(ods, k, axis);
    AllOk(cells) && SortedByNamespace(Values(cells))
  }

  ghost predicate OdsGood(ods: seq<seq<Byte>>, k: nat)
    requires |ods| == k * k
  {
    forall i: nat :: i < k ==> OdsAxisGood(ods, k, D.Row(i)) && OdsAxisGood(ods, k, D.Column(i))
  }

  /** `raw` is the extension of `ods`. */
  ghost predicate Extends(c: Codec, ods: seq<seq<Byte>>, k: nat, raw: seq<seq<Byte>>)
    requires |ods| == k * k
  {
    |raw| == (2 * k) * (2 * k) && D.Holds(c, ods, k, raw, D.BottomRows(2 * k))
  }

  /** A cell of the extension parses as the original share or as the parity that belongs there. */
  lemma ExtendedCell(c: Codec, ods: seq<seq<Byte>>, k: nat, raw: seq<seq<Byte>>, r: nat, q: nat)
    requires |ods| == k * k && Extends(c, ods, k, raw) && r < 2 * k && q < 2 * k
    ensures ParseCell(raw, 2 * k, r, q) ==
            if r < k && q < k then OdsCell(ods, k, r, q) else ParityFromRaw(D.Share(c, ods, k, r, q))
  {
    assert D.IsFinal(D.BottomRows(2 * k), k, r, q);
    assert D.IsShareAt(c, ods, k, raw, r, q);
    if r < k && q < k { D.FlattenIndexInRange(r, q, k); }
  }

  lemma ParitySized(c: Codec, ods: seq<seq<Byte>>, k: nat, r: nat, q: nat)
    requires |ods| == k * k && KeepsSize(c) && AllSized(ods) && r < 2 * k && q < 2 * k && !(r < k && q < k)
    ensures |D.Share(c, ods, k, r, q)| == SHARE_SIZE
  {
    var x := D.Original(c, ods, k);
    if r < k {
      RowSized(c, ods, k, r);
    } else if q < k {
      ColumnSized(c, ods, k, q);
    } else {
      var parities := D.ColumnParities(c, r - k, x, k, k);
      forall p: nat | p < k ensures |parities[p]| == SHARE_SIZE {
        ColumnSized(c, ods, k, p);
      }
      assert AllSized(parities);
    }
  }

  lemma RowSized(c: Codec, ods: seq<seq<Byte>>, k: nat, r: nat)
    requires |ods| == k * k && AllSized(ods) && r < k
    ensures AllSized(D.GridRow(D.Original(c, ods, k), r, k))
  {
    forall q: nat | q < k ensures |D.GridRow(D.Original(c, ods, k), r, k)[q]| == SHARE_SIZE {
      D.FlattenIndexInRange(r, q, k);
    }
  }

  lemma ColumnSized(c: Codec, ods: seq<seq<Byte>>, k: nat, q: nat)
    requires |ods| == k * k && AllSized(ods) && q < k
    ensures AllSized(D.GridColumn(D.Original(c, ods, k), q, k))
  {
    forall r: nat | r < k ensures |D.GridColumn(D.Original(c, ods, k), q, k)[r]| == SHARE_SIZE {
      D.FlattenIndexInRange(r, q, k);
    }
  }

  /** Parity shares parse and have the highest namespace. */
  ghost predicate IsParity(cell: Result<Share, ShareError>) { cell.Ok? && cell.value.Valid() && cell.value.isParity }

  lemma AxisCells(c: Codec, ods: seq<seq<Byte>>, k: nat, raw: seq<seq<Byte>>, axis: D.Axis)
    requires |ods| == k * k && Extends(c, ods, k, raw) && KeepsSize(c) && AllSized(ods) && axis.index < 2 * k
    ensures var cells := Cells(raw, 2 * k, axis);
            && (forall t :: k <= t < 2 * k ==> IsParity(cells[t]))
            && (if axis.index < k then cells[..k] == OdsCells(ods, k, axis)
                else forall t :: 0 <= t < k ==> IsParity(cells[t]))
  {
    var cells := Cells(raw, 2 * k, axis);
    forall t: nat | t < 2 * k
      ensures if axis.index < k && t < k then cells[t] == OdsCells(ods, k, axis)[t] else IsParity(cells[t])
    {
      var r, q := D.CellRow(axis, t), D.CellColumn(axis, t);
      ExtendedCell(c, ods, k, raw, r, q);
      if !(axis.index < k && t < k) { ParitySized(c, ods, k, r, q); }
    }
  }

  /** Parity at the end, or everywhere, does not disturb the order. */
  lemma OrderedWithParity(cells: seq<Result<Share, ShareError>>, k: nat)
    requires k <= |cells| && forall t :: k <= t < |cells| ==> IsParity(cells[t])
    ensures AllOk(cells) && SortedByNamespace(Values(cells)) <==> AllOk(cells[..k]) && SortedByNamespace(Values(cells[..k]))
  {
    if AllOk(cells[..k]) {
      assert forall t :: 0 <= t < |cells| ==> cells[t].Ok? && cells[t].value.Valid() by {
        assert forall t :: 0 <= t < k ==> cells[..k][t] == cells[t];
      }
      var all, data := Values(cells), Values(cells[..k]);
      assert forall t :: 0 <= t < k ==> all[t] == data[t];
      if SortedByNamespace(data) {
        forall i, j | 0 <= i < j < |all| ensures Value(all[i].Namespace()) <= Value(all[j].Namespace()) {
          if j < k {
            assert Value(data[i].Namespace()) <= Value(data[j].Namespace());
          } else {
            ParityIsHighest(all[i].Namespace());
          }
        }
      }
    } else {
      assert exists t :: 0 <= t < k && !(cells[..k][t].Ok? && cells[..k][t].value.Valid());
    }
  }

  /** An axis of the extension is good exactly if its data half is, and always if it has none. */
  lemma AxisGood(c: Codec, ods: seq<seq<Byte>>, k: nat, raw: seq<seq<Byte>>, axis: D.Axis)
    requires |ods| == k * k && Extends(c, ods, k, raw) && KeepsSize(c) && AllSized(ods) && axis.index < 2 * k
    ensures GoodAxis(raw, 2 * k, axis) <==> axis.index >= k || OdsAxisGood(ods, k, axis)
  {
    AxisCells(c, ods, k, raw, axis);
    if axis.index < k {
      OrderedWithParity(Cells(raw, 2 * k, axis), k);
    } else {
      OrderedWithParity(Cells(raw, 2 * k, axis), 0);
    }
  }

  /** The extension passes validation exactly if the original square is in order. */
  lemma ExtensionGood(c: Codec, ods: seq<seq<Byte>>, k: nat, raw: seq<seq<Byte>>)
    requires |ods| == k * k && Extends(c, ods, k, raw) && KeepsSize(c)
    ensures AxesGood(raw, 2 * k) <==> OdsGood(ods, k)
  {
    if AllSized(ods) {
      forall i: nat | i < 2 * k
        ensures GoodAxis(raw, 2 * k, D.Row(i)) <==> i >= k || OdsAxisGood(ods, k, D.Row(i))
        ensures GoodAxis(raw, 2 * k, D.Column(i)) <==> i >= k || OdsAxisGood(ods, k, D.Column(i))
      {
        AxisGood(c, ods, k, raw, D.Row(i));
        AxisGood(c, ods, k, raw, D.Column(i));
      }
    } else {
      MissizedShare(c, ods, k, raw);
    }
  }

  /** A share of the wrong size spoils its row before and after the extension. */
  lemma MissizedShare(c: Codec, ods: seq<seq<Byte>>, k: nat, raw: seq<seq<Byte>>)
    requires |ods| == k * k && Extends(c, ods, k, raw) && !AllSized(ods)
    ensures exists i: nat :: i < k && !GoodAxis(raw, 2 * k, D.Row(i)) && !OdsAxisGood(ods, k, D.Row(i))
  {
    var n :| 0 <= n < |ods| && |ods[n]| != SHARE_SIZE;
    var i, t := Located(n, k);
    ExtendedCell(c, ods, k, raw, i, t);
    assert OdsCells(ods, k, D.Row(i))[t].Err? && Cells(raw, 2 * k, D.Row(i))[t].Err?;
    assert !GoodAxis(raw, 2 * k, D.Row(i)) && !OdsAxisGood(ods, k, D.Row(i));
  }

  lemma Located(n: nat, k: nat) returns (i: nat, t: nat)
    requires n < k * k
    ensures i < k && t < k && D.FlattenIndex(i, t, k) == n
  {
    i, t := n / k, n % k;
    if i >= k { D.RowsApart(k - 1, i, k); }
  }

  lemma Doubled(k: nat, raw: seq<seq<Byte>>)
    requires |raw| == (2 * k) * (2 * k)
    ensures |raw| == 4 * (k * k) && forall w: nat :: w * w == |raw| ==> w == 2 * k
  {
    D.RootUnique(|raw|);
  }

  /**
   `from_ods`: extends and validates. It succeeds exactly if the shares form a square of a legal
   width that the codec takes and whose shares are legal and sorted in every row and column; then
   the data square is that extension.
   */
  method FromOds(c: Codec, ods: seq<seq<Byte>>, maxWidth: nat) returns (r: Result<Eds, EdsError>)
    ensures (forall k: nat :: k * k != |ods|) ==> r == Err(EdsInvalidDimensions)
    ensures ods == [] ==> r == Err(ZeroWidthPanic)
    ensures forall k: nat :: k * k == |ods| && r.Ok? ==>
                               && D.Encodable(c, ods, k) && r.value.squareWidth == 2 * k
                               && exists raw :: Extends(c, ods, k, raw) && IsSquareOf(r.value, raw)
    ensures forall k: nat :: k * k == |ods| && KeepsSize(c) ==>
                               (r.Ok? <==> D.Encodable(c, ods, k) && OdsGood(ods, k) && IsWidth(2 * k, 4 * (k * k), maxWidth))
  {
    var extended := D.FromOds(c, ods);
    if extended.Err? {
      return Err(match extended.error
                 case EdsInvalidDimensions => EdsInvalidDimensions
                 case CodecError => CodecError
                 case ZeroWidthPanic => ZeroWidthPanic);
    }
    ghost var k, raw := D.SquareRoot(|ods|), extended.value[..];
    D.RootUnique(|ods|);
    r := New(extended.value[..], maxWidth);
    Doubled(k, raw);
    if KeepsSize(c) { ExtensionGood(c, ods, k, raw); }
  }
}
