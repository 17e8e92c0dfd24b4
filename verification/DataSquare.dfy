/**
 Extending the original data square with parity (types/src/eds.rs, `from_ods`).

 The square is filled in place: rows of the first quadrant, columns of the first quadrant, rows
 of the third. The codec is any linear systematic code: parity share `j` is the sum over the
 data shares `i` of `mul(j, i, data[i])`, where the `mul(j, i, _)` are additive and commute with
 each other, as multiplications by elements of a field do.
 */
module DataSquares {
  import opened Wrappers

  /** The arithmetic of a code, and the data shares that its implementation refuses to encode. */
  datatype Codec<!M> = Codec(zero: M, add: (M, M) -> M, mul: (nat, nat, M) -> M, rejects: seq<M> -> bool)

  /** The laws of a linear code; each is instantiated by the lemma of the same name below. */
  ghost predicate Linear<M(!new)>(c: Codec<M>) {
    && (forall x, y {:trigger About2(x, y)} :: c.add(x, y) == c.add(y, x))
    && (forall x, y, z {:trigger About3(x, y, z)} :: c.add(c.add(x, y), z) == c.add(x, c.add(y, z)))
    && (forall x {:trigger About1(x)} :: c.add(c.zero, x) == x)
    && (forall j: nat, i: nat, x, y {:trigger AboutMul(j, i, x, y)} ::
          c.mul(j, i, c.add(x, y)) == c.add(c.mul(j, i, x), c.mul(j, i, y)))
    && (forall j: nat, i: nat {:trigger AboutZero(j, i)} :: c.mul(j, i, c.zero) == c.zero)
    && (forall j: nat, i: nat, j': nat, i': nat, x {:trigger AboutMuls(j, i, j', i', x)} ::
          c.mul(j, i, c.mul(j', i', x)) == c.mul(j', i', c.mul(j, i, x)))
  }

  // Markers that keep the laws from being applied where no lemma asks for them.
  ghost predicate About1<M>(x: M) { true }
  ghost predicate About2<M>(x: M, y: M) { true }
  ghost predicate About3<M>(x: M, y: M, z: M) { true }
  ghost predicate AboutZero(j: nat, i: nat) { true }
  ghost predicate AboutMul<M>(j: nat, i: nat, x: M, y: M) { true }
  ghost predicate AboutMuls<M>(j: nat, i: nat, j': nat, i': nat, x: M) { true }

  lemma Commutative<M(!new)>(c: Codec<M>, x: M, y: M)
    requires Linear(c)
    ensures c.add(x, y) == c.add(y, x)
  {
    assert About2(x, y);
  }

  lemma Associative<M(!new)>(c: Codec<M>, x: M, y: M, z: M)
    requires Linear(c)
    ensures c.add(c.add(x, y), z) == c.add(x, c.add(y, z))
  {
    assert About3(x, y, z);
  }

  lemma ZeroLaws<M(!new)>(c: Codec<M>, j: nat, i: nat)
    requires Linear(c)
    ensures c.add(c.zero, c.zero) == c.zero && c.mul(j, i, c.zero) == c.zero
  {
    assert About1(c.zero) && AboutZero(j, i);
  }

  lemma Additive<M(!new)>(c: Codec<M>, j: nat, i: nat, x: M, y: M)
    requires Linear(c)
    ensures c.mul(j, i, c.add(x, y)) == c.add(c.mul(j, i, x), c.mul(j, i, y))
  {
    assert AboutMul(j, i, x, y);
  }

  lemma MulsCommute<M(!new)>(c: Codec<M>, j: nat, i: nat, j': nat, i': nat, x: M)
    requires Linear(c)
    ensures c.mul(j, i, c.mul(j', i', x)) == c.mul(j', i', c.mul(j, i, x))
  {
    assert AboutMuls(j, i, j', i', x);
  }

  /** Parity share `j` of some data shares. */
  function Parity<M>(c: Codec<M>, j: nat, data: seq<M>): M {
    if data == [] then c.zero
    else
      var n := |data| - 1;
      c.add(Parity(c, j, data[..n]), c.mul(j, n, data[n]))
  }

  /** Half data, half the parity of that data. */
  ghost predicate IsCodeword<M>(c: Codec<M>, shares: seq<M>) {
    && |shares| % 2 == 0
    && var k := |shares| / 2;
    forall j :: 0 <= j < k ==> shares[k + j] == Parity(c, j, shares[..k])
  }

  // ---- sums of sums --------------------------------------------------------------------------

  ghost function Sums<M>(c: Codec<M>, u: seq<M>, v: seq<M>): (r: seq<M>)
    requires |u| == |v|
    ensures |r| == |u|
    ensures forall i :: 0 <= i < |u| ==> r[i] == c.add(u[i], v[i])
  {
    seq(|u|, i requires 0 <= i < |u| => c.add(u[i], v[i]))
  }

  ghost function Scaled<M>(c: Codec<M>, p: nat, q: nat, u: seq<M>): (r: seq<M>)
    ensures |r| == |u|
    ensures forall i :: 0 <= i < |u| ==> r[i] == c.mul(p, q, u[i])
  {
    seq(|u|, i requires 0 <= i < |u| => c.mul(p, q, u[i]))
  }

  lemma Interchange<M(!new)>(c: Codec<M>, a: M, b: M, x: M, y: M)
    requires Linear(c)
    ensures c.add(c.add(a, b), c.add(x, y)) == c.add(c.add(a, x), c.add(b, y))
  {
    Associative(c, a, b, c.add(x, y));
    Associative(c, b, x, y);
    Commutative(c, b, x);
    Associative(c, x, b, y);
    Associative(c, a, x, c.add(b, y));
  }

  lemma {:induction false} ParityOfSum<M(!new)>(c: Codec<M>, j: nat, u: seq<M>, v: seq<M>)
    requires Linear(c) && |u| == |v|
    ensures Parity(c, j, Sums(c, u, v)) == c.add(Parity(c, j, u), Parity(c, j, v))
  {
    if u == [] {
      ZeroLaws(c, 0, 0);
    } else {
      var n := |u| - 1;
      ParityOfSum(c, j, u[..n], v[..n]);
      Additive(c, j, n, u[n], v[n]);
      assert Sums(c, u, v)[..n] == Sums(c, u[..n], v[..n]);
      Interchange(c, Parity(c, j, u[..n]), Parity(c, j, v[..n]), c.mul(j, n, u[n]), c.mul(j, n, v[n]));
    }
  }

  lemma {:induction false} ParityOfScaled<M(!new)>(c: Codec<M>, j: nat, p: nat, q: nat, u: seq<M>)
    requires Linear(c)
    ensures Parity(c, j, Scaled(c, p, q, u)) == c.mul(p, q, Parity(c, j, u))
  {
    if u == [] {
      ZeroLaws(c, p, q);
    } else {
      var n := |u| - 1;
      Additive(c, p, q, Parity(c, j, u[..n]), c.mul(j, n, u[n]));
      MulsCommute(c, j, n, p, q, u[n]);
      ParityOfScaled(c, j, p, q, u[..n]);
      assert Scaled(c, p, q, u)[..n] == Scaled(c, p, q, u[..n]);
    }
  }

  lemma {:induction false} ParityOfZeros<M(!new)>(c: Codec<M>, j: nat, u: seq<M>)
    requires Linear(c) && forall i :: 0 <= i < |u| ==> u[i] == c.zero
    ensures Parity(c, j, u) == c.zero
  {
    if u != [] {
      var n := |u| - 1;
      ParityOfZeros(c, j, u[..n]);
      ZeroLaws(c, j, n);
    }
  }

  /** Row `r` of a grid, its first `n` cells; and column `q`, its first `m` cells. */
  ghost function GridRow<M>(x: (nat, nat) -> M, r: nat, n: nat): seq<M> { seq(n, q requires 0 <= q => x(r, q)) }

  ghost function GridColumn<M>(x: (nat, nat) -> M, q: nat, m: nat): seq<M> { seq(m, r requires 0 <= r => x(r, q)) }

  /** The parities of all rows, and of all columns. */
  ghost function RowParities<M>(c: Codec<M>, i: nat, x: (nat, nat) -> M, m: nat, n: nat): seq<M> {
    seq(m, r requires 0 <= r => Parity(c, i, GridRow(x, r, n)))
  }

  ghost function ColumnParities<M>(c: Codec<M>, j: nat, x: (nat, nat) -> M, m: nat, n: nat): seq<M> {
    seq(n, q requires 0 <= q => Parity(c, j, GridColumn(x, q, m)))
  }

  /** The parity of the row parities is the parity of the column parities. */
  lemma {:induction false} ParitiesCommute<M(!new)>(c: Codec<M>, i: nat, j: nat, x: (nat, nat) -> M, m: nat, n: nat)
    requires Linear(c)
    ensures Parity(c, i, ColumnParities(c, j, x, m, n)) == Parity(c, j, RowParities(c, i, x, m, n))
  {
    if n == 0 {
      assert forall r :: 0 <= r < m ==> GridRow(x, r, 0) == [];
      ParityOfZeros(c, j, RowParities(c, i, x, m, 0));
    } else {
      var column := GridColumn(x, n - 1, m);
      var before, after := RowParities(c, i, x, m, n - 1), RowParities(c, i, x, m, n);
      ParitiesCommute(c, i, j, x, m, n - 1);
      assert ColumnParities(c, j, x, m, n)[..n - 1] == ColumnParities(c, j, x, m, n - 1);
      forall r | 0 <= r < m ensures after[r] == c.add(before[r], c.mul(i, n - 1, column[r])) {
        assert GridRow(x, r, n)[..n - 1] == GridRow(x, r, n - 1);
      }
      assert after == Sums(c, before, Scaled(c, i, n - 1, column));
      ParityOfSum(c, j, before, Scaled(c, i, n - 1, column));
      ParityOfScaled(c, j, i, n - 1, column);
    }
  }

  // ---- the square ----------------------------------------------------------------------------

  /** `flatten_index`: where the share of a row and column sits in the row-major square. */
  function FlattenIndex(row: nat, column: nat, width: nat): nat { row * width + column }

  lemma FlattenIndexInRange(row: nat, column: nat, width: nat)
    requires row < width && column < width
    ensures FlattenIndex(row, column, width) < width * width
  {
    assert row * width <= (width - 1) * width;
  }

  lemma FlattenIndexInjective(row: nat, column: nat, row': nat, column': nat, width: nat)
    requires column < width && column' < width
    requires FlattenIndex(row, column, width) == FlattenIndex(row', column', width)
    ensures row == row' && column == column'
  {
    if row < row' {
      RowsApart(row, row', width);
    } else if row' < row {
      RowsApart(row', row, width);
    }
  }

  lemma {:induction false} RowsApart(row: nat, row': nat, width: nat)
    requires row < row'
    ensures row * width + width <= row' * width
  {
    if row + 1 < row' { RowsApart(row, row' - 1, width); }
    assert (row' - 1) * width + width == row' * width;
  }

  /** A cell of the original square of width `k`. */
  ghost function Original<M>(c: Codec<M>, ods: seq<M>, k: nat): (nat, nat) -> M
    requires |ods| == k * k
  {
    (r: nat, q: nat) => if FlattenIndex(r, q, k) < |ods| then ods[FlattenIndex(r, q, k)] else c.zero
  }

  /**
   The share at a cell of the extended square: original data, row parity of it, column parity
   of it, and in the fourth quadrant the row parity of the third.
   */
  ghost function Share<M>(c: Codec<M>, ods: seq<M>, k: nat, r: nat, q: nat): M
    requires |ods| == k * k
  {
    var x := Original(c, ods, k);
    if r < k && q < k then x(r, q)
    else if r < k then Parity(c, q - k, GridRow(x, r, k))
    else if q < k then Parity(c, r - k, GridColumn(x, q, k))
    else Parity(c, q - k, ColumnParities(c, r - k, x, k, k))
  }

  ghost function SquareRow<M>(c: Codec<M>, ods: seq<M>, k: nat, r: nat): seq<M>
    requires |ods| == k * k
  {
    seq(2 * k, q requires 0 <= q => Share(c, ods, k, r, q))
  }

  ghost function SquareColumn<M>(c: Codec<M>, ods: seq<M>, k: nat, q: nat): seq<M>
    requires |ods| == k * k
  {
    seq(2 * k, r requires 0 <= r => Share(c, ods, k, r, q))
  }

  lemma RowIsCodeword<M>(c: Codec<M>, ods: seq<M>, k: nat, r: nat)
    requires |ods| == k * k && r < 2 * k
    ensures IsCodeword(c, SquareRow(c, ods, k, r))
  {
    var x, row := Original(c, ods, k), SquareRow(c, ods, k, r);
    if r < k {
      assert row[..k] == GridRow(x, r, k);
    } else {
      assert row[..k] == ColumnParities(c, r - k, x, k, k);
    }
  }

  /** Also the columns through the fourth quadrant, which was filled row by row. */
  lemma ColumnIsCodeword<M(!new)>(c: Codec<M>, ods: seq<M>, k: nat, q: nat)
    requires Linear(c) && |ods| == k * k && q < 2 * k
    ensures IsCodeword(c, SquareColumn(c, ods, k, q))
  {
    if q < k {
      LeftColumnIsCodeword(c, ods, k, q);
    } else {
      RightColumnIsCodeword(c, ods, k, q);
    }
  }

  lemma LeftColumnIsCodeword<M>(c: Codec<M>, ods: seq<M>, k: nat, q: nat)
    requires |ods| == k * k && q < k
    ensures IsCodeword(c, SquareColumn(c, ods, k, q))
  {
    assert SquareColumn(c, ods, k, q)[..k] == GridColumn(Original(c, ods, k), q, k);
  }

  lemma RightColumnIsCodeword<M(!new)>(c: Codec<M>, ods: seq<M>, k: nat, q: nat)
    requires Linear(c) && |ods| == k * k && k <= q < 2 * k
    ensures IsCodeword(c, SquareColumn(c, ods, k, q))
  {
    var column := SquareColumn(c, ods, k, q);
    TopOfRightColumn(c, ods, k, q);
    forall j: nat | j < k ensures column[k + j] == Parity(c, j, column[..k]) {
      RightColumnCell(c, ods, k, q, j);
    }
  }

  lemma RightColumnCell<M(!new)>(c: Codec<M>, ods: seq<M>, k: nat, q: nat, j: nat)
    requires Linear(c) && |ods| == k * k && k <= q < 2 * k && j < k
    ensures SquareColumn(c, ods, k, q)[k + j] == Parity(c, j, RowParities(c, q - k, Original(c, ods, k), k, k))
  {
    ParitiesCommute(c, q - k, j, Original(c, ods, k), k, k);
  }

  lemma TopOfRightColumn<M>(c: Codec<M>, ods: seq<M>, k: nat, q: nat)
    requires |ods| == k * k && k <= q < 2 * k
    ensures SquareColumn(c, ods, k, q)[..k] == RowParities(c, q - k, Original(c, ods, k), k, k)
  {
  }

  /** The fourth quadrant may be computed row-wise from the third or column-wise from the second. */
  lemma FourthQuadrantEitherWay<M(!new)>(c: Codec<M>, ods: seq<M>, k: nat, r: nat, q: nat)
    requires Linear(c) && |ods| == k * k && k <= r < 2 * k && k <= q < 2 * k
    ensures Share(c, ods, k, r, q) == Parity(c, q - k, SquareRow(c, ods, k, r)[..k])
    ensures Share(c, ods, k, r, q) == Parity(c, r - k, SquareColumn(c, ods, k, q)[..k])
  {
    RowIsCodeword(c, ods, k, r);
    ColumnIsCodeword(c, ods, k, q);
    assert SquareRow(c, ods, k, r)[k + (q - k)] == Share(c, ods, k, r, q);
    assert SquareColumn(c, ods, k, q)[k + (r - k)] == Share(c, ods, k, r, q);
  }

  // ---- filling it in place -------------------------------------------------------------------

  /** The integer square root that `f64::sqrt` and the cast to `usize` compute. */
  function SquareRoot(n: nat): (r: nat)
    ensures r * r <= n < (r + 1) * (r + 1)
  {
    if n == 0 then 0
    else
      var r := SquareRoot(n - 1);
      if (r + 1) * (r + 1) <= n then r + 1 else r
  }

  /** Which cells are final in each phase: rows of Q1, columns of Q1, rows of Q3. */
  datatype Phase = TopRows(n: nat) | LeftColumns(n: nat) | BottomRows(n: nat)

  ghost predicate IsFinal(p: Phase, k: nat, r: nat, q: nat) {
    match p
    case TopRows(n) => r < k && (q < k || r < n)
    case LeftColumns(n) => r < k || q < n
    case BottomRows(n) => r < n || q < k
  }

  /** The cells that are final in phase `p` hold their share. */
  ghost predicate Holds<M>(c: Codec<M>, ods: seq<M>, k: nat, eds: seq<M>, p: Phase)
    requires |ods| == k * k
  {
    && |eds| == 2 * k * (2 * k)
    && forall r: nat, q: nat :: r < 2 * k && q < 2 * k && IsFinal(p, k, r, q) ==>
         IsShareAt(c, ods, k, eds, r, q)
  }

  ghost predicate IsShareAt<M>(c: Codec<M>, ods: seq<M>, k: nat, eds: seq<M>, r: nat, q: nat)
    requires |ods| == k * k
  {
    && FlattenIndex(r, q, 2 * k) < |eds|
    && eds[FlattenIndex(r, q, 2 * k)] == Share(c, ods, k, r, q)
  }

  /** A row or a column of the square. */
  datatype Axis = Row(index: nat) | Column(index: nat)

  function CellRow(axis: Axis, t: nat): nat { if axis.Row? then axis.index else t }

  function CellColumn(axis: Axis, t: nat): nat { if axis.Row? then t else axis.index }

  /** Where the shares of an axis sit: a chunk of the square, or every `width`-th share. */
  function Indices(axis: Axis, width: nat): (s: seq<nat>)
    ensures |s| == width
  {
    if axis.Row? then seq(width, t requires 0 <= t => FlattenIndex(axis.index, t, width))
    else seq(width, t requires 0 <= t => FlattenIndex(t, axis.index, width))
  }

  ghost predicate DistinctIn(s: seq<nat>, n: nat) {
    && (forall t :: 0 <= t < |s| ==> s[t] < n)
    && (forall t, u :: 0 <= t < u < |s| ==> s[t] != s[u])
  }

  lemma IndicesDistinct(axis: Axis, width: nat)
    requires axis.index < width
    ensures DistinctIn(Indices(axis, width), width * width)
  {
    var s := Indices(axis, width);
    forall t | 0 <= t < width ensures s[t] < width * width {
      FlattenIndexInRange(CellRow(axis, t), CellColumn(axis, t), width);
    }
    forall t, u | 0 <= t < u < width ensures s[t] != s[u] {
      if s[t] == s[u] {
        FlattenIndexInjective(CellRow(axis, t), CellColumn(axis, t), CellRow(axis, u), CellColumn(axis, u), width);
      }
    }
  }

  /** The shares at the given indices. */
  ghost function Picked<M>(eds: seq<M>, indices: seq<nat>): (shares: seq<M>)
    requires forall t :: 0 <= t < |indices| ==> indices[t] < |eds|
    ensures |shares| == |indices| && forall t :: 0 <= t < |indices| ==> shares[t] == eds[indices[t]]
  {
    seq(|indices|, t requires 0 <= t < |indices| => eds[indices[t]])
  }

  /** `eds'` is `eds` with the parity half of the indexed shares replaced, up to the `n`-th index. */
  ghost predicate Encoded<M>(c: Codec<M>, eds: seq<M>, eds': seq<M>, indices: seq<nat>, n: nat)
    requires |indices| % 2 == 0 && DistinctIn(indices, |eds|)
  {
    var k := |indices| / 2;
    && |eds'| == |eds|
    && (forall t :: k <= t < n && t < |indices| ==> eds'[indices[t]] == Parity(c, t - k, Picked(eds, indices)[..k]))
    && (forall i :: 0 <= i < |eds| && (forall t :: k <= t < n && t < |indices| ==> indices[t] != i) ==> eds'[i] == eds[i])
  }

  /** `leopard_codec::encode` on the shares at the given indices: fills the parity half in place. */
  method Encode<M>(c: Codec<M>, eds: array<M>, indices: seq<nat>) returns (ok: bool)
    requires |indices| % 2 == 0 && DistinctIn(indices, eds.Length)
    modifies eds
    ensures ok <==> !c.rejects(Picked(old(eds[..]), indices)[..|indices| / 2])
    ensures ok ==> Encoded(c, old(eds[..]), eds[..], indices, |indices|)
    ensures !ok ==> eds[..] == old(eds[..])
  {
    var k := |indices| / 2;
    var data: seq<M> := [];
    for t := 0 to k
      invariant eds[..] == old(eds[..])
      invariant |data| == t && forall i :: 0 <= i < t ==> data[i] == eds[indices[i]]
    {
      data := data + [eds[indices[t]]];
    }
    assert data == Picked(old(eds[..]), indices)[..k];
    if c.rejects(data) {
      return false;
    }
    for t := k to |indices|
      invariant Encoded(c, old(eds[..]), eds[..], indices, t)
    {
      eds[indices[t]] := Parity(c, t - k, data);
    }
    ok := true;
  }

  /** The final shares along an axis. */
  ghost function AxisShares<M>(c: Codec<M>, ods: seq<M>, k: nat, axis: Axis): seq<M>
    requires |ods| == k * k
  {
    if axis.Row? then SquareRow(c, ods, k, axis.index) else SquareColumn(c, ods, k, axis.index)
  }

  /** Encoding an axis whose data half is final makes the whole axis final. */
  lemma AxisEncoded<M>(c: Codec<M>, ods: seq<M>, k: nat, eds: seq<M>, eds': seq<M>, axis: Axis, p: Phase, p': Phase)
    requires |ods| == k * k && axis.index < 2 * k && Holds(c, ods, k, eds, p)
    requires DistinctIn(Indices(axis, 2 * k), |eds|)
    requires Encoded(c, eds, eds', Indices(axis, 2 * k), 2 * k)
    requires IsCodeword(c, AxisShares(c, ods, k, axis))
    requires forall t: nat :: t < k ==> IsFinal(p, k, CellRow(axis, t), CellColumn(axis, t))
    requires forall r: nat, q: nat :: r < 2 * k && q < 2 * k && IsFinal(p', k, r, q) ==>
               IsFinal(p, k, r, q) || OnAxis(axis, r, q)
    ensures Holds(c, ods, k, eds', p')
  {
    DataHalfFinal(c, ods, k, eds, axis, p);
    forall r: nat, q: nat | r < 2 * k && q < 2 * k && IsFinal(p', k, r, q) ensures IsShareAt(c, ods, k, eds', r, q) {
      var t := if axis.Row? then q else r;
      if OnAxis(axis, r, q) && t < k {
        assert IsFinal(p, k, CellRow(axis, t), CellColumn(axis, t));
      }
      CellEncoded(c, ods, k, eds, eds', axis, p, r, q);
    }
  }

  ghost predicate OnAxis(axis: Axis, r: nat, q: nat) { if axis.Row? then r == axis.index else q == axis.index }

  lemma DataHalfFinal<M>(c: Codec<M>, ods: seq<M>, k: nat, eds: seq<M>, axis: Axis, p: Phase)
    requires |ods| == k * k && axis.index < 2 * k && Holds(c, ods, k, eds, p)
    requires DistinctIn(Indices(axis, 2 * k), |eds|)
    requires forall t: nat :: t < k ==> IsFinal(p, k, CellRow(axis, t), CellColumn(axis, t))
    ensures Picked(eds, Indices(axis, 2 * k))[..k] == AxisShares(c, ods, k, axis)[..k]
  {
    var data, shares := Picked(eds, Indices(axis, 2 * k))[..k], AxisShares(c, ods, k, axis);
    forall t: nat | t < k ensures data[t] == shares[t] {
      assert IsShareAt(c, ods, k, eds, CellRow(axis, t), CellColumn(axis, t));
    }
  }

  lemma CellEncoded<M>(c: Codec<M>, ods: seq<M>, k: nat, eds: seq<M>, eds': seq<M>, axis: Axis, p: Phase, r: nat, q: nat)
    requires |ods| == k * k && axis.index < 2 * k && Holds(c, ods, k, eds, p) && r < 2 * k && q < 2 * k
    requires DistinctIn(Indices(axis, 2 * k), |eds|)
    requires Encoded(c, eds, eds', Indices(axis, 2 * k), 2 * k)
    requires IsCodeword(c, AxisShares(c, ods, k, axis))
    requires Picked(eds, Indices(axis, 2 * k))[..k] == AxisShares(c, ods, k, axis)[..k]
    requires IsFinal(p, k, r, q) || (OnAxis(axis, r, q) && (if axis.Row? then q else r) >= k)
    ensures IsShareAt(c, ods, k, eds', r, q)
  {
    if OnAxis(axis, r, q) && (if axis.Row? then q else r) >= k {
      CellWritten(c, ods, k, eds, eds', axis, r, q);
    } else {
      CellKept(c, ods, k, eds, eds', axis, r, q);
    }
  }

  lemma CellWritten<M>(c: Codec<M>, ods: seq<M>, k: nat, eds: seq<M>, eds': seq<M>, axis: Axis, r: nat, q: nat)
    requires |ods| == k * k && axis.index < 2 * k && |eds| == 2 * k * (2 * k) && r < 2 * k && q < 2 * k
    requires DistinctIn(Indices(axis, 2 * k), |eds|)
    requires Encoded(c, eds, eds', Indices(axis, 2 * k), 2 * k)
    requires IsCodeword(c, AxisShares(c, ods, k, axis))
    requires Picked(eds, Indices(axis, 2 * k))[..k] == AxisShares(c, ods, k, axis)[..k]
    requires OnAxis(axis, r, q) && (if axis.Row? then q else r) >= k
    ensures IsShareAt(c, ods, k, eds', r, q)
  {
    var t := if axis.Row? then q else r;
    ShareWritten(c, eds, eds', Indices(axis, 2 * k), AxisShares(c, ods, k, axis), k, t);
    assert Indices(axis, 2 * k)[t] == FlattenIndex(r, q, 2 * k);
    assert AxisShares(c, ods, k, axis)[t] == Share(c, ods, k, r, q);
  }

  /** Encoding shares whose data half is that of a codeword completes the codeword. */
  lemma ShareWritten<M>(c: Codec<M>, eds: seq<M>, eds': seq<M>, indices: seq<nat>, shares: seq<M>, k: nat, t: nat)
    requires |indices| == |shares| == 2 * k && DistinctIn(indices, |eds|) && k <= t < 2 * k
    requires Encoded(c, eds, eds', indices, 2 * k)
    requires IsCodeword(c, shares) && Picked(eds, indices)[..k] == shares[..k]
    ensures indices[t] < |eds'| && eds'[indices[t]] == shares[t]
  {
    assert shares[k + (t - k)] == shares[t];
  }

  lemma CellKept<M>(c: Codec<M>, ods: seq<M>, k: nat, eds: seq<M>, eds': seq<M>, axis: Axis, r: nat, q: nat)
    requires |ods| == k * k && axis.index < 2 * k && |eds| == 2 * k * (2 * k) && r < 2 * k && q < 2 * k
    requires DistinctIn(Indices(axis, 2 * k), |eds|)
    requires Encoded(c, eds, eds', Indices(axis, 2 * k), 2 * k)
    requires !(OnAxis(axis, r, q) && (if axis.Row? then q else r) >= k) && IsShareAt(c, ods, k, eds, r, q)
    ensures IsShareAt(c, ods, k, eds', r, q)
  {
    FlattenIndexInRange(r, q, 2 * k);
    OffAxis(axis, k, r, q);
  }

  /** A cell off the axis, or in its data half, is none of those the encoder writes. */
  lemma OffAxis(axis: Axis, k: nat, r: nat, q: nat)
    requires axis.index < 2 * k && r < 2 * k && q < 2 * k
    requires !(OnAxis(axis, r, q) && (if axis.Row? then q else r) >= k)
    ensures forall t :: k <= t < 2 * k ==> Indices(axis, 2 * k)[t] != FlattenIndex(r, q, 2 * k)
  {
    forall t | k <= t < 2 * k ensures Indices(axis, 2 * k)[t] != FlattenIndex(r, q, 2 * k) {
      if Indices(axis, 2 * k)[t] == FlattenIndex(r, q, 2 * k) {
        FlattenIndexInjective(r, q, CellRow(axis, t), CellColumn(axis, t), 2 * k);
      }
    }
  }

  /** Has cell (`r`, `q`) of the first quadrant been copied before cell (`row`, `column`)? */
  ghost predicate CopiedBefore(r: nat, q: nat, row: nat, column: nat) { r < row || (r == row && q < column) }

  ghost predicate Copied<M>(c: Codec<M>, ods: seq<M>, k: nat, eds: seq<M>, row: nat, column: nat)
    requires |ods| == k * k
  {
    && |eds| == 2 * k * (2 * k)
    && forall r: nat, q: nat :: r < k && q < k && CopiedBefore(r, q, row, column) ==> IsShareAt(c, ods, k, eds, r, q)
  }

  lemma CopiedOneMore<M>(c: Codec<M>, ods: seq<M>, k: nat, eds: seq<M>, row: nat, column: nat)
    requires |ods| == k * k && row < k && column < k && Copied(c, ods, k, eds, row, column)
    ensures FlattenIndex(row, column, 2 * k) < |eds| && FlattenIndex(row, column, k) < |ods|
    ensures Copied(c, ods, k, eds[FlattenIndex(row, column, 2 * k) := ods[FlattenIndex(row, column, k)]], row, column + 1)
  {
    var w := 2 * k;
    FlattenIndexInRange(row, column, w);
    FlattenIndexInRange(row, column, k);
    var at := FlattenIndex(row, column, w);
    var eds' := eds[at := ods[FlattenIndex(row, column, k)]];
    forall r: nat, q: nat | r < k && q < k && CopiedBefore(r, q, row, column + 1)
      ensures IsShareAt(c, ods, k, eds', r, q)
    {
      if r == row && q == column {
      } else {
        assert IsShareAt(c, ods, k, eds, r, q);
        if FlattenIndex(r, q, w) == at { FlattenIndexInjective(r, q, row, column, w); }
      }
    }
  }

  /** Takes the rows of the original square apart with room for parity in between. */
  method CopyOriginal<M>(c: Codec<M>, ods: seq<M>, k: nat) returns (eds: array<M>)
    requires |ods| == k * k
    ensures fresh(eds) && Holds(c, ods, k, eds[..], TopRows(0))
  {
    var w := 2 * k;
    eds := new M[w * w](_ => c.zero);
    for row := 0 to k
      invariant Copied(c, ods, k, eds[..], row, 0)
    {
      for column := 0 to k
        invariant Copied(c, ods, k, eds[..], row, column)
      {
        CopiedOneMore(c, ods, k, eds[..], row, column);
        eds[FlattenIndex(row, column, w)] := ods[FlattenIndex(row, column, k)];
      }
      assert forall r: nat, q: nat :: r < k && q < k && CopiedBefore(r, q, row + 1, 0) ==> CopiedBefore(r, q, row, k);
    }
    assert forall r: nat, q: nat :: r < 2 * k && q < 2 * k && IsFinal(TopRows(0), k, r, q) ==> CopiedBefore(r, q, k, 0);
  }

  /** `ZeroWidthPanic` is no error value: asking for chunks of width 0 panics. */
  datatype Error = EdsInvalidDimensions | CodecError | ZeroWidthPanic

  /** The codec takes the data half of this axis. */
  ghost predicate Takes<M>(c: Codec<M>, ods: seq<M>, k: nat, axis: Axis)
    requires |ods| == k * k
  {
    !c.rejects(AxisShares(c, ods, k, axis)[..k])
  }

  /** The codec takes every row of the square and every column of its left half. */
  ghost predicate Encodable<M>(c: Codec<M>, ods: seq<M>, k: nat)
    requires |ods| == k * k
  {
    && (forall i: nat :: i < 2 * k ==> Takes(c, ods, k, Row(i)))
    && (forall i: nat :: i < k ==> Takes(c, ods, k, Column(i)))
  }

  /**
   `from_ods`: fails only if the shares do not form a square or the codec refuses one of the axes
   it is given, and panics without shares; otherwise extends them in place so that the original
   data is the first quadrant and, for a linear code, every row and every column is a codeword.
   */
  method FromOds<M(!new)>(c: Codec<M>, ods: seq<M>) returns (r: Result<array<M>, Error>)
    ensures r == Err(EdsInvalidDimensions) <==> forall k: nat :: k * k != |ods|
    ensures r == Err(ZeroWidthPanic) <==> ods == []
    ensures forall k: nat :: k * k == |ods| && ods != [] ==> (r.Ok? <==> Encodable(c, ods, k))
    ensures r.Ok? ==> fresh(r.value)
    ensures r.Ok? ==> forall k: nat :: k * k == |ods| ==>
                        && Holds(c, ods, k, r.value[..], BottomRows(2 * k))
                        && (forall i: nat :: i < 2 * k ==> IsCodeword(c, RowOf(r.value[..], 2 * k, i)))
                        && (Linear(c) ==> forall i: nat :: i < 2 * k ==> IsCodeword(c, ColumnOf(r.value[..], 2 * k, i)))
  {
    var k := SquareRoot(|ods|);
    RootUnique(|ods|);
    if k * k != |ods| {
      return Err(EdsInvalidDimensions);
    }
    if k == 0 {
      return Err(ZeroWidthPanic);
    }
    var eds := CopyOriginal(c, ods, k);
    var ok := FillParity(c, ods, k, eds);
    if !ok {
      return Err(CodecError);
    }
    AllCodewords(c, ods, k, eds[..]);
    r := Ok(eds);
  }

  /** The three encoding passes. */
  method FillParity<M>(c: Codec<M>, ods: seq<M>, k: nat, eds: array<M>) returns (ok: bool)
    requires |ods| == k * k && Holds(c, ods, k, eds[..], TopRows(0))
    modifies eds
    ensures ok <==> Encodable(c, ods, k)
    ensures ok ==> Holds(c, ods, k, eds[..], BottomRows(2 * k))
  {
    for row := 0 to k
      invariant Holds(c, ods, k, eds[..], TopRows(row))
      invariant forall i: nat :: i < row ==> Takes(c, ods, k, Row(i))
    {
      RowIsCodeword(c, ods, k, row);
      ok := EncodeAxis(c, ods, k, eds, Row(row), TopRows(row), TopRows(row + 1));
      if !ok {
        return;
      }
    }
    Renamed(c, ods, k, eds[..], TopRows(k), LeftColumns(0));
    for column := 0 to k
      invariant Holds(c, ods, k, eds[..], LeftColumns(column))
      invariant forall i: nat :: i < column ==> Takes(c, ods, k, Column(i))
    {
      LeftColumnIsCodeword(c, ods, k, column);
      ok := EncodeAxis(c, ods, k, eds, Column(column), LeftColumns(column), LeftColumns(column + 1));
      if !ok {
        return;
      }
    }
    Renamed(c, ods, k, eds[..], LeftColumns(k), BottomRows(k));
    for row := k to 2 * k
      invariant Holds(c, ods, k, eds[..], BottomRows(row))
      invariant forall i: nat :: i < row ==> Takes(c, ods, k, Row(i))
    {
      RowIsCodeword(c, ods, k, row);
      ok := EncodeAxis(c, ods, k, eds, Row(row), BottomRows(row), BottomRows(row + 1));
      if !ok {
        return;
      }
    }
    ok := true;
  }

  /** Encodes an axis whose data half is final. */
  method EncodeAxis<M>(c: Codec<M>, ods: seq<M>, k: nat, eds: array<M>, axis: Axis, ghost p: Phase, ghost p': Phase)
    returns (ok: bool)
    requires |ods| == k * k && axis.index < 2 * k && Holds(c, ods, k, eds[..], p)
    requires IsCodeword(c, AxisShares(c, ods, k, axis))
    requires forall t: nat :: t < k ==> IsFinal(p, k, CellRow(axis, t), CellColumn(axis, t))
    requires forall r: nat, q: nat :: r < 2 * k && q < 2 * k && IsFinal(p', k, r, q) ==>
               IsFinal(p, k, r, q) || OnAxis(axis, r, q)
    modifies eds
    ensures ok <==> Takes(c, ods, k, axis)
    ensures ok ==> Holds(c, ods, k, eds[..], p')
  {
    ghost var before := eds[..];
    IndicesDistinct(axis, 2 * k);
    DataHalfFinal(c, ods, k, before, axis, p);
    ok := Encode(c, eds, Indices(axis, 2 * k));
    if ok {
      AxisEncoded(c, ods, k, before, eds[..], axis, p, p');
    }
  }

  lemma Renamed<M>(c: Codec<M>, ods: seq<M>, k: nat, eds: seq<M>, p: Phase, p': Phase)
    requires |ods| == k * k && Holds(c, ods, k, eds, p)
    requires forall r: nat, q: nat :: r < 2 * k && q < 2 * k && IsFinal(p', k, r, q) ==> IsFinal(p, k, r, q)
    ensures Holds(c, ods, k, eds, p')
  {
  }

  lemma RootUnique(n: nat)
    ensures forall k: nat :: k * k == n ==> k == SquareRoot(n)
  {
    var r := SquareRoot(n);
    forall k: nat | k * k == n ensures k == r {
      if k < r {
        SquaresApart(k, r);
      } else if r < k {
        SquaresApart(r, k);
      }
    }
  }

  lemma SquaresApart(a: nat, b: nat)
    requires a < b
    ensures (a + 1) * (a + 1) <= b * b
  {
    var d := b - (a + 1);
    assert b * b == (a + 1) * (a + 1) + 2 * (a + 1) * d + d * d;
  }

  /** The laws are those of coding with any matrix of numbers. */
  lemma MatrixCodesAreLinear(g: (nat, nat) -> int)
    ensures Linear(Codec(0, (x: int, y: int) => x + y, (j, i, x: int) => g(j, i) * x, _ => false))
  {
    var c := Codec(0, (x: int, y: int) => x + y, (j, i, x: int) => g(j, i) * x, _ => false);
    forall j: nat, i: nat, x, y ensures c.mul(j, i, c.add(x, y)) == c.add(c.mul(j, i, x), c.mul(j, i, y)) {
      Distributes(g(j, i), x, y);
    }
    forall j: nat, i: nat, j': nat, i': nat, x
      ensures c.mul(j, i, c.mul(j', i', x)) == c.mul(j', i', c.mul(j, i, x))
    {
      Swaps(g(j, i), g(j', i'), x);
    }
  }

  lemma Distributes(a: int, x: int, y: int)
    ensures a * (x + y) == a * x + a * y
  {
  }

  lemma Swaps(a: int, b: int, x: int)
    ensures a * (b * x) == b * (a * x)
  {
  }

  /** A row and a column of a square held in row-major order. */
  ghost function RowOf<M>(eds: seq<M>, width: nat, i: nat): seq<M>
    requires |eds| == width * width && i < width
  {
    seq(width, t requires 0 <= t < width => FlattenIndexInRange(i, t, width); eds[FlattenIndex(i, t, width)])
  }

  ghost function ColumnOf<M>(eds: seq<M>, width: nat, i: nat): seq<M>
    requires |eds| == width * width && i < width
  {
    seq(width, t requires 0 <= t < width => FlattenIndexInRange(t, i, width); eds[FlattenIndex(t, i, width)])
  }

  /** The square is kept row by row. */
  lemma RowIsSlice<M>(eds: seq<M>, width: nat, i: nat)
    requires |eds| == width * width && i < width
    ensures i * width + width <= |eds| && RowOf(eds, width, i) == eds[i * width..i * width + width]
  {
    RowsApart(i, width, width);
    forall t: nat | t < width ensures RowOf(eds, width, i)[t] == eds[i * width..i * width + width][t] {
      FlattenIndexInRange(i, t, width);
    }
  }

  /** The first half of each of the first rows is a row of the original square, as it was given. */
  lemma FirstQuadrantIsData<M>(c: Codec<M>, ods: seq<M>, k: nat, eds: seq<M>, i: nat)
    requires |ods| == k * k && Holds(c, ods, k, eds, BottomRows(2 * k)) && i < k
    ensures i * k + k <= |ods| && RowOf(eds, 2 * k, i)[..k] == ods[i * k..i * k + k]
  {
    RowsApart(i, k, k);
    forall t: nat | t < k ensures RowOf(eds, 2 * k, i)[..k][t] == ods[i * k..i * k + k][t] {
      assert IsShareAt(c, ods, k, eds, i, t);
      FlattenIndexInRange(i, t, k);
    }
  }

  lemma AllCodewords<M(!new)>(c: Codec<M>, ods: seq<M>, k: nat, eds: seq<M>)
    requires |ods| == k * k && Holds(c, ods, k, eds, BottomRows(2 * k))
    ensures forall i: nat :: i < 2 * k ==> IsCodeword(c, RowOf(eds, 2 * k, i))
    ensures Linear(c) ==> forall i: nat :: i < 2 * k ==> IsCodeword(c, ColumnOf(eds, 2 * k, i))
  {
    var w := 2 * k;
    forall i: nat | i < w ensures IsCodeword(c, RowOf(eds, w, i)) {
      RowIsCodeword(c, ods, k, i);
      forall t: nat | t < w ensures RowOf(eds, w, i)[t] == SquareRow(c, ods, k, i)[t] {
        assert IsShareAt(c, ods, k, eds, i, t);
      }
      assert RowOf(eds, w, i) == SquareRow(c, ods, k, i);
    }
    if Linear(c) {
      forall i: nat | i < w ensures IsCodeword(c, ColumnOf(eds, w, i)) {
        ColumnIsCodeword(c, ods, k, i);
        forall t: nat | t < w ensures ColumnOf(eds, w, i)[t] == SquareColumn(c, ods, k, i)[t] {
          assert IsShareAt(c, ods, k, eds, t, i);
        }
        assert ColumnOf(eds, w, i) == SquareColumn(c, ods, k, i);
      }
    }
  }
}
