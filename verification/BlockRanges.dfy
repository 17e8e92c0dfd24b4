/**
 Height ranges and sorted lists of them (node/src/block_ranges.rs).

 The meaning of a list of ranges is the set of heights it covers (`Heights`). Two shapes of
 list matter: `Sorted` (what `from_vec` admits: valid, ascending, disjoint, possibly touching)
 and `Canonical` (a gap between any two neighbours). Set semantics hold on the first;
 a set determines its list on the second.
 */
module BlockRangeSets {
  import opened Wrappers

  const U64_MAX: nat := 0xFFFF_FFFF_FFFF_FFFF

  type u64 = x: nat | x <= U64_MAX

  function Min(a: int, b: int): int { if a < b then a else b }

  function Max(a: int, b: int): int { if a < b then b else a }

  ghost predicate IsHighest(s: set<int>, h: int) { h in s && forall x :: x in s ==> x <= h }

  /** The heights from `lo` to `hi`, both included. */
  ghost function Span(lo: int, hi: int): set<int> {
    set h: int | lo <= h <= hi && Between(lo, h, hi)
  }

  predicate Between(lo: int, h: int, hi: int) { lo <= h <= hi }

  lemma {:induction false} SpanSize(lo: int, hi: int)
    ensures |Span(lo, hi)| == Max(0, hi - lo + 1)
    decreases hi - lo
  {
    if lo <= hi {
      SpanSize(lo, hi - 1);
      assert Span(lo, hi) == Span(lo, hi - 1) + {hi};
    }
  }

  lemma SpanEnds(lo: int, hi: int)
    requires lo <= hi
    ensures Span(lo, hi) == Span(lo, hi - 1) + {hi}
    ensures Span(lo, hi) == Span(lo + 1, hi) + {lo}
  {
  }

  /** An inclusive range of heights; `start > end` is an empty range. */
  datatype BlockRange = BlockRange(start: u64, end: u64) {

    predicate Valid() { 0 < start <= end }

    predicate IsEmpty() { start > end }

    ghost function Heights(): set<int> { Span(start, end) }

    function Len(): nat { if start <= end then end - start + 1 else 0 }

    predicate IsAdjacent(other: BlockRange)
      requires Valid() && other.Valid()
    {
      || end == other.start - 1
      || start - 1 == other.end
    }

    predicate IsOverlapping(other: BlockRange)
      requires Valid() && other.Valid()
    {
      || (start < other.start && other.start <= end <= other.end)
      || (end > other.end && other.start <= start <= other.end)
      || (start >= other.start && end <= other.end)
      || (start <= other.start && end >= other.end)
    }

    predicate LeftOf(other: BlockRange)
      requires Valid() && other.Valid()
    {
      end < other.start
    }

    /** At most `limit` heights, dropping from the left. */
    function TruncateLeft(limit: u64): BlockRange {
      if IsEmpty() then BlockRange(1, 0)
      else
        var adjustedStart := (if end < limit then 0 else end - limit) + 1;
        if adjustedStart > U64_MAX then BlockRange(1, 0)
        else BlockRange(Max(start, adjustedStart), end)
    }

    /** At most `limit` heights, dropping from the right; the addition saturates. */
    function TruncateRight(limit: u64): BlockRange {
      if IsEmpty() then BlockRange(1, 0)
      else
        var saturated := Min(start + limit, U64_MAX);
        if saturated == 0 then BlockRange(1, 0)
        else BlockRange(start, Min(end, saturated - 1))
    }

    /** Does inserting or removing `range` have to look at this one? */
    predicate Affects(range: BlockRange)
      requires Valid() && range.Valid()
    {
      IsOverlapping(range) || IsAdjacent(range)
    }
  }

  lemma RangeLen(r: BlockRange)
    ensures r.Len() == |r.Heights()|
  {
    SpanSize(r.start, r.end);
  }

  /** The four-way overlap test and the two-way adjacency test, as sets of heights. */
  lemma OverlapAndAdjacency(a: BlockRange, b: BlockRange)
    requires a.Valid() && b.Valid()
    ensures a.IsOverlapping(b) <==> a.Heights() * b.Heights() != {}
    ensures a.IsAdjacent(b) <==>
            a.Heights() * b.Heights() == {} && (a.start - 1 in b.Heights() || a.end + 1 in b.Heights())
  {
    assert a.IsOverlapping(b) ==> Max(a.start, b.start) in a.Heights() * b.Heights();
  }

  /**
   `truncate_left` keeps the highest `limit` heights, except that it never keeps height 0, which
   is no block.
   */
  lemma TruncateLeftKeepsHighest(r: BlockRange, limit: u64)
    ensures r.TruncateLeft(limit).Heights() == Span(Max(r.start, r.end - limit + 1), r.end)
            <==> r.IsEmpty() || 0 < r.start || limit <= r.end
    ensures 0 < r.start ==> r.TruncateLeft(limit).Len() == Min(r.Len(), limit)
  {
    if r.start == 0 && r.end < limit {
      assert 0 in Span(Max(r.start, r.end - limit + 1), r.end);
      assert 0 !in r.TruncateLeft(limit).Heights();
    }
  }

  /**
   `truncate_right` keeps the lowest `limit` heights exactly when its saturating addition does
   not cut off the very last height a 64-bit number can hold.
   */
  lemma TruncateRightKeepsLowest(r: BlockRange, limit: u64)
    requires !r.IsEmpty()
    ensures r.TruncateRight(limit).Heights() == Span(r.start, Min(r.end, r.start + limit - 1))
            <==> r.end < U64_MAX || r.start + limit <= U64_MAX
    ensures r.end < U64_MAX || r.start + limit <= U64_MAX ==>
              r.TruncateRight(limit).Len() == Min(r.Len(), limit)
  {
    if r.end == U64_MAX && r.start + limit > U64_MAX {
      assert U64_MAX in Span(r.start, Min(r.end, r.start + limit - 1));
      assert U64_MAX !in r.TruncateRight(limit).Heights();
    }
  }

  predicate AllValid(rs: seq<BlockRange>) { forall i :: 0 <= i < |rs| ==> rs[i].Valid() }

  /** All ranges valid, each one below the next with at least `gap` heights between them. */
  predicate Spaced(rs: seq<BlockRange>, gap: nat) {
    && AllValid(rs)
    && (forall i, j :: 0 <= i < j < |rs| ==> rs[i].end + gap < rs[j].start)
  }

  /** Valid ranges, each entirely below the next. */
  predicate Sorted(rs: seq<BlockRange>) { Spaced(rs, 0) }

  /** Sorted, and no two neighbours touch. */
  predicate Canonical(rs: seq<BlockRange>) { Spaced(rs, 1) }

  /** The set of heights a list of ranges stands for. */
  ghost function Heights(rs: seq<BlockRange>): set<int> {
    set h: int | 0 <= h <= U64_MAX && Covers(rs, h)
  }

  ghost predicate Covers(rs: seq<BlockRange>, h: int) {
    exists i :: 0 <= i < |rs| && rs[i].start <= h <= rs[i].end
  }

  lemma HeightsConcat(a: seq<BlockRange>, b: seq<BlockRange>)
    ensures Heights(a + b) == Heights(a) + Heights(b)
  {
    forall h | Covers(b, h) ensures Covers(a + b, h) {
      var i :| 0 <= i < |b| && b[i].start <= h <= b[i].end;
      assert (a + b)[|a| + i] == b[i];
    }
    forall h | Covers(a, h) ensures Covers(a + b, h) {
      var i :| 0 <= i < |a| && a[i].start <= h <= a[i].end;
      assert (a + b)[i] == a[i];
    }
  }

  lemma HeightsSingle(r: BlockRange)
    ensures Heights([r]) == r.Heights()
  {
    assert [r][0] == r;
  }

  /** The parts before, at and after a window of a list make up its heights. */
  lemma HeightsWindow(rs: seq<BlockRange>, lo: int, hi: int)
    requires 0 <= lo <= hi <= |rs|
    ensures Heights(rs) == Heights(rs[..lo]) + Heights(rs[lo..hi]) + Heights(rs[hi..])
  {
    HeightsConcat(rs[..lo], rs[lo..hi]);
    HeightsConcat(rs[..lo] + rs[lo..hi], rs[hi..]);
    assert rs == rs[..lo] + rs[lo..hi] + rs[hi..];
  }

  /** Two canonical lists of the same heights are the same list. */
  lemma {:induction false} CanonicalUnique(a: seq<BlockRange>, b: seq<BlockRange>)
    requires Canonical(a) && Canonical(b)
    requires Heights(a) == Heights(b)
    ensures a == b
  {
    if a != [] && b != [] {
      FirstEndsAgree(a, b);
      FirstEndsAgree(b, a);
      FirstWindow(a);
      FirstWindow(b);
      Unsplit(a[0].Heights(), Heights(a[1..]));
      Unsplit(b[0].Heights(), Heights(b[1..]));
      CanonicalUnique(a[1..], b[1..]);
      assert a == [a[0]] + a[1..] && b == [b[0]] + b[1..];
    } else {
      NonEmptyHeights(a);
      NonEmptyHeights(b);
    }
  }

  lemma NonEmptyHeights(rs: seq<BlockRange>)
    requires Sorted(rs)
    ensures rs == [] <==> Heights(rs) == {}
  {
    if rs != [] { PopFirst(rs); }
  }

  lemma FirstEndsAgree(a: seq<BlockRange>, b: seq<BlockRange>)
    requires Canonical(a) && Canonical(b) && a != [] && b != []
    requires Heights(a) == Heights(b)
    ensures b[0].start <= a[0].start
    ensures a[0].start == b[0].start ==> b[0].end <= a[0].end
  {
    assert a[0].start in Heights(a);
    assert a[0].end + 1 !in Heights(a);
    InHeights(b, 0);
    assert a[0].end + 1 !in b[0].Heights();
  }

  /** Is every member of `s` a height that a store can hold? */
  ghost predicate IsHeightSet(s: set<int>) { forall h :: h in s ==> 0 < h <= U64_MAX }

  lemma ValidHeightSet(rs: seq<BlockRange>)
    requires AllValid(rs)
    ensures IsHeightSet(Heights(rs))
  {
  }

  /** Every finite set of heights has a canonical list, built from the bottom up. */
  lemma {:induction false} CanonicalUpTo(s: set<int>, n: nat) returns (rs: seq<BlockRange>)
    requires IsHeightSet(s) && n <= U64_MAX
    ensures Canonical(rs) && Heights(rs) == set h | h in s && h <= n
  {
    if n == 0 {
      rs := [];
    } else {
      rs := CanonicalUpTo(s, n - 1);
      if n in s {
        rs := Appended(rs, n);
      }
    }
  }

  /** A canonical list with one more height put on top of it. */
  lemma Appended(below: seq<BlockRange>, m: int) returns (rs: seq<BlockRange>)
    requires Canonical(below) && 0 < m <= U64_MAX
    requires forall h :: h in Heights(below) ==> h < m
    ensures Canonical(rs) && Heights(rs) == Heights(below) + {m}
  {
    var top := BlockRange(m, m);
    assert top.Heights() == {m};
    if below == [] {
      rs := [top];
      HeightsSingle(top);
    } else {
      LastWindow(below);
      var k := |below| - 1;
      if below[k].end == m - 1 {
        top := BlockRange(below[k].start, m);
        assert top.Heights() == below[k].Heights() + {m};
        Associate(Heights(below[..k]), below[k].Heights(), {m});
        rs := Topped(below[..k], top);
      } else {
        rs := Topped(below, top);
      }
    }
  }

  lemma Topped(below: seq<BlockRange>, top: BlockRange) returns (rs: seq<BlockRange>)
    requires Canonical(below) && top.Valid()
    requires below != [] ==> below[|below| - 1].end + 1 < top.start
    ensures Canonical(rs) && Heights(rs) == Heights(below) + top.Heights()
  {
    rs := below + [top];
    ConcatSpaced(below, [top], 1);
    HeightsConcat(below, [top]);
    HeightsSingle(top);
  }

  /** The canonical list of a set of heights: the normal form of every operation below. */
  ghost function Canon(s: set<int>): (rs: seq<BlockRange>)
    requires IsHeightSet(s)
    ensures Canonical(rs) && Heights(rs) == s
  {
    assert exists rs :: Canonical(rs) && Heights(rs) == s by {
      var rs := CanonicalUpTo(s, U64_MAX);
      assert s == set h | h in s && h <= U64_MAX;
    }
    var rs :| Canonical(rs) && Heights(rs) == s;
    rs
  }

  lemma CanonOfHeights(rs: seq<BlockRange>)
    requires Canonical(rs)
    ensures IsHeightSet(Heights(rs))
    ensures Canon(Heights(rs)) == rs
  {
    ValidHeightSet(rs);
    CanonicalUnique(Canon(Heights(rs)), rs);
  }

  /** What `+` and `-` compute, as proved of the methods `Add` and `Subtract`. */
  ghost function Union(a: seq<BlockRange>, b: seq<BlockRange>): seq<BlockRange>
    requires AllValid(a) && AllValid(b)
  {
    ValidHeightSet(a);
    ValidHeightSet(b);
    Canon(Heights(a) + Heights(b))
  }

  ghost function Difference(a: seq<BlockRange>, b: seq<BlockRange>): seq<BlockRange>
    requires AllValid(a) && AllValid(b)
  {
    ValidHeightSet(a);
    Canon(Heights(a) - Heights(b))
  }

  lemma IsUnion(a: seq<BlockRange>, b: seq<BlockRange>, c: seq<BlockRange>)
    requires AllValid(a) && AllValid(b) && Canonical(c) && Heights(c) == Heights(a) + Heights(b)
    ensures c == Union(a, b)
  {
    CanonOfHeights(c);
  }

  lemma IsDifference(a: seq<BlockRange>, b: seq<BlockRange>, c: seq<BlockRange>)
    requires AllValid(a) && AllValid(b) && Canonical(c) && Heights(c) == Heights(a) - Heights(b)
    ensures c == Difference(a, b)
  {
    CanonOfHeights(c);
  }

  /** On lists of ranges, as lists, `+` and `-` obey the laws of sets in any order. */
  lemma SetLaws(a: seq<BlockRange>, b: seq<BlockRange>, c: seq<BlockRange>)
    requires Canonical(a) && Canonical(b) && Canonical(c)
    ensures Union(a, b) == Union(b, a)
    ensures Union(Union(a, b), c) == Union(a, Union(b, c))
    ensures Union(a, a) == a && Union(a, []) == a
    ensures Difference(a, a) == [] && Difference(a, []) == a
    ensures Difference(Difference(a, b), c) == Difference(Difference(a, c), b)
    ensures Difference(Difference(a, b), c) == Difference(a, Union(b, c))
    ensures Difference(Union(a, b), c) == Union(Difference(a, c), Difference(b, c))
    ensures Union(Difference(a, b), b) == Union(a, b)
    ensures Difference(Union(a, b), b) == Difference(a, b)
  {
    CanonOfHeights(a);
    assert Heights([]) == {};
    var A, B, C := Heights(a), Heights(b), Heights(c);
    assert A + B == B + A && A + A == A && A + {} == A && A - A == {} && A - {} == A;
    assert (A + B) + C == A + (B + C);
    assert (A - B) - C == (A - C) - B && (A - B) - C == A - (B + C);
    assert (A + B) - C == (A - C) + (B - C) && (A - B) + B == A + B && (A + B) - B == A - B;
    CanonOfHeights([]);
  }

  /** May `range` be inserted next to a store holding the heights of `rs`? */
  ghost predicate Insertable(rs: seq<BlockRange>, range: BlockRange) {
    && range.Valid()
    && range.Heights() * Heights(rs) == {}
    && (|| rs == []
        || rs[|rs| - 1].end < range.start
        || range.start - 1 in Heights(rs)
        || range.end + 1 in Heights(rs))
  }

  datatype BlockRangesError =
    | UnsortedBlockRanges
    | InvalidBlockRange(range: BlockRange)
    | BlockRangeOverlap(range: BlockRange)
    | NoAdjacentNeighbors(range: BlockRange)

  /** The indices of the ranges of `rs` that overlap or touch `range` are those of `w`. */
  ghost predicate IsAffectedWindow(rs: seq<BlockRange>, range: BlockRange, w: Option<(nat, nat)>)
    requires Sorted(rs) && range.Valid()
  {
    match w
    case None => forall i :: 0 <= i < |rs| ==> !rs[i].Affects(range)
    case Some((first, last)) =>
      && first <= last < |rs|
      && forall i :: 0 <= i < |rs| ==> (rs[i].Affects(range) <==> first <= i <= last)
  }

  /** Merging `range` with a window of ranges it overlaps or touches covers their union. */
  lemma HullCovers(rs: seq<BlockRange>, range: BlockRange, first: nat, last: nat)
    requires Sorted(rs) && range.Valid() && IsAffectedWindow(rs, range, Some((first, last)))
    ensures Span(Min(rs[first].start, range.start), Max(rs[last].end, range.end))
            == Heights(rs[first..last + 1]) + range.Heights()
  {
    var mid := rs[first..last + 1];
    assert mid[0] == rs[first] && mid[|mid| - 1] == rs[last];
    assert rs[first].Affects(range) && rs[last].Affects(range);
    forall h | Min(rs[first].start, range.start) <= h <= Max(rs[last].end, range.end)
      ensures h in Heights(mid) + range.Heights()
    {
      if h < range.start {
        assert mid[0].start <= h <= mid[0].end;
      } else if h > range.end {
        assert mid[|mid| - 1].start <= h <= mid[|mid| - 1].end;
      }
    }
  }

  /** The sorted, disjoint list of height ranges behind the store, the syncer and the daser. */
  class BlockRanges {
    var ranges: seq<BlockRange>

    constructor ()
      ensures ranges == []
    {
      ranges := [];
    }

    /** `from_vec`: accepts exactly the sorted lists and blames the first offending range. */
    static method FromVec(v: seq<BlockRange>) returns (r: Result<BlockRanges, BlockRangesError>)
      ensures r.Ok? <==> Sorted(v)
      ensures r.Ok? ==> fresh(r.value) && r.value.ranges == v
      ensures r.Err? ==> exists i :: 0 <= i < |v| && Sorted(v[..i]) && !Sorted(v[..i + 1])
                                     && r.error == if v[i].Valid() then UnsortedBlockRanges
                                                   else InvalidBlockRange(v[i])
    {
      for i := 0 to |v|
        invariant Sorted(v[..i])
      {
        assert v[..i + 1][i] == v[i];
        if !v[i].Valid() {
          return Err(InvalidBlockRange(v[i]));
        }
        if i > 0 && v[i].start <= v[i - 1].end {
          assert v[..i + 1][i - 1] == v[i - 1];
          return Err(UnsortedBlockRanges);
        }
        assert forall k :: 0 <= k < i ==> v[..i][k] == v[k] && v[..i + 1][k] == v[k];
        assert i > 0 ==> forall k :: 0 <= k < i ==> v[k].end <= v[i - 1].end;
      }
      assert v[..|v|] == v;
      var b := new BlockRanges();
      b.ranges := v;
      r := Ok(b);
    }

    predicate Contains(height: u64): (r: bool)
      reads this
      ensures r <==> height in Heights(ranges)
    {
      exists i :: 0 <= i < |ranges| && ranges[i].start <= height <= ranges[i].end
    }

    /** The highest height. */
    function Head(): (r: Option<u64>)
      requires Sorted(ranges)
      reads this
      ensures r.None? <==> Heights(ranges) == {}
      ensures r.Some? ==> r.value in Heights(ranges) && forall h :: h in Heights(ranges) ==> h <= r.value
    {
      if ranges == [] then None
      else
        LastWindow(ranges);
        Some(ranges[|ranges| - 1].end)
    }

    /** The lowest height. */
    function Tail(): (r: Option<u64>)
      requires Sorted(ranges)
      reads this
      ensures r.None? <==> Heights(ranges) == {}
      ensures r.Some? ==> r.value in Heights(ranges) && forall h :: h in Heights(ranges) ==> r.value <= h
    {
      if ranges == [] then None
      else
        FirstWindow(ranges);
        Some(ranges[0].start)
    }

    /** Scans for the ranges overlapping or touching `range`, stopping after the first run. */
    method FindAffectedRanges(range: BlockRange) returns (w: Option<(nat, nat)>)
      requires Sorted(ranges) && range.Valid()
      ensures IsAffectedWindow(ranges, range, w)
    {
      var startIdx: Option<nat> := None;
      var endIdx: Option<nat> := None;
      for i := 0 to |ranges|
        invariant startIdx.None? <==> endIdx.None?
        invariant startIdx.None? ==> forall k :: 0 <= k < i ==> !ranges[k].Affects(range)
        invariant startIdx.Some? ==> startIdx.value <= endIdx.value == i - 1
        invariant startIdx.Some? ==>
                    forall k :: 0 <= k < i ==> (ranges[k].Affects(range) <==> startIdx.value <= k)
      {
        if ranges[i].Affects(range) {
          if startIdx.None? {
            startIdx := Some(i);
          }
          endIdx := Some(i);
        } else if endIdx.Some? {
          assert ranges[i - 1].Affects(range);
          break;
        }
      }
      w := if startIdx.Some? && endIdx.Some? then Some((startIdx.value, endIdx.value)) else None;
    }

    /**
     The gate of every store insertion: accepts exactly the insertable ranges, says of each of
     the two neighbouring heights whether it is stored, and names the constraint it found broken.
     */
    method CheckInsertionConstraints(toInsert: BlockRange)
      returns (r: Result<(bool, bool), BlockRangesError>)
      requires Sorted(ranges)
      ensures r.Ok? <==> Insertable(ranges, toInsert)
      ensures r.Ok? ==> (r.value.0 <==> toInsert.start - 1 in Heights(ranges))
                        && (r.value.1 <==> toInsert.end + 1 in Heights(ranges))
      ensures r.Err? ==>
                r.error == if !toInsert.Valid() then InvalidBlockRange(toInsert)
                           else if toInsert.Heights() * Heights(ranges) != {} then BlockRangeOverlap(toInsert)
                           else NoAdjacentNeighbors(toInsert)
    {
      if !toInsert.Valid() {
        return Err(InvalidBlockRange(toInsert));
      }
      if ranges == [] {
        return Ok((false, false));
      }
      var headRange := ranges[|ranges| - 1];
      if headRange.LeftOf(toInsert) {
        AboveHead(ranges, toInsert);
        return Ok((headRange.IsAdjacent(toInsert), false));
      }
      var w := FindAffectedRanges(toInsert);
      if w.None? {
        NothingAffected(ranges, toInsert);
        return Err(NoAdjacentNeighbors(toInsert));
      }
      var (firstIdx, lastIdx) := w.value;
      var first, last := ranges[firstIdx], ranges[lastIdx];
      NeighboursAffected(ranges, toInsert, firstIdx, lastIdx);
      if firstIdx == lastIdx {
        if first.IsOverlapping(toInsert) {
          return Err(BlockRangeOverlap(toInsert));
        } else if first.LeftOf(toInsert) {
          return Ok((true, false));
        } else {
          return Ok((false, true));
        }
      } else if lastIdx == firstIdx + 1 {
        if first.IsAdjacent(toInsert) && last.IsAdjacent(toInsert) {
          return Ok((true, true));
        } else {
          return Err(BlockRangeOverlap(toInsert));
        }
      } else {
        return Err(BlockRangeOverlap(toInsert));
      }
    }

    /** Removes and returns the highest height. */
    method PopHead() returns (head: Option<u64>)
      requires Sorted(ranges)
      modifies this
      ensures Sorted(ranges)
      ensures old(Canonical(ranges)) ==> Canonical(ranges)
      ensures head.None? <==> old(Heights(ranges)) == {}
      ensures head.Some? ==> head.value in old(Heights(ranges))
                             && forall h :: h in old(Heights(ranges)) ==> h <= head.value
      ensures Heights(ranges) == old(Heights(ranges)) - if head.Some? then {head.value as int} else {}
    {
      if ranges == [] {
        return None;
      }
      var k := |ranges| - 1;
      var last := ranges[k];
      head := Some(last.end);
      PopLast(ranges);
      WithoutLastSpaced(ranges, 0);
      if Canonical(ranges) { WithoutLastSpaced(ranges, 1); }
      if last.Len() == 1 {
        ranges := ranges[..k];
      } else {
        ranges := ranges[..k] + [BlockRange(last.start, last.end - 1)];
      }
    }

    /** Removes and returns the lowest height. */
    method PopTail() returns (tail: Option<u64>)
      requires Sorted(ranges)
      modifies this
      ensures Sorted(ranges)
      ensures old(Canonical(ranges)) ==> Canonical(ranges)
      ensures tail.None? <==> old(Heights(ranges)) == {}
      ensures tail.Some? ==> tail.value in old(Heights(ranges))
                             && forall h :: h in old(Heights(ranges)) ==> tail.value <= h
      ensures Heights(ranges) == old(Heights(ranges)) - if tail.Some? then {tail.value as int} else {}
    {
      if ranges == [] {
        return None;
      }
      var first := ranges[0];
      tail := Some(first.start);
      PopFirst(ranges);
      WithoutFirstSpaced(ranges, 0);
      if Canonical(ranges) { WithoutFirstSpaced(ranges, 1); }
      if first.Len() == 1 {
        ranges := ranges[1..];
      } else {
        ranges := [BlockRange(first.start + 1, first.end)] + ranges[1..];
      }
    }

    /**
     Inserts a range that may overlap what is there: set union on any sorted list. Only an
     invalid range is turned away.
     */
    method InsertRelaxed(range: BlockRange) returns (r: Result<(), BlockRangesError>)
      requires Sorted(ranges)
      modifies this
      ensures r == if range.Valid() then Ok(()) else Err(InvalidBlockRange(range))
      ensures r.Err? ==> ranges == old(ranges)
      ensures Sorted(ranges)
      ensures r.Ok? ==> Heights(ranges) == old(Heights(ranges)) + range.Heights()
      ensures old(Canonical(ranges)) ==> Canonical(ranges)
    {
      if !range.Valid() {
        return Err(InvalidBlockRange(range));
      }
      ghost var _ := MergeIn(range);
      r := Ok(());
    }

    /** Replaces the affected window by one range, or places `range` between its neighbours. */
    method MergeIn(range: BlockRange) returns (ghost w: Option<(nat, nat)>)
      requires Sorted(ranges) && range.Valid()
      modifies this
      ensures Sorted(ranges)
      ensures Heights(ranges) == old(Heights(ranges)) + range.Heights()
      ensures old(Canonical(ranges)) ==> Canonical(ranges)
      ensures IsAffectedWindow(old(ranges), range, w)
      ensures |ranges| == |old(ranges)| + 1 - WindowSize(w)
    {
      var affected := FindAffectedRanges(range);
      w := affected;
      if affected.Some? {
        var (first, last) := affected.value;
        var hull := BlockRange(Min(ranges[first].start, range.start), Max(ranges[last].end, range.end));
        Merged(ranges, range, first, last, hull);
        MergedHeights(ranges, range, first, last, hull);
        ranges := ranges[..first] + [hull] + ranges[last + 1..];
      } else {
        for i := 0 to |ranges|
          invariant ranges == old(ranges)
          invariant forall k :: 0 <= k < i ==> ranges[k].end < range.start
        {
          if range.end < ranges[i].start {
            Placed(ranges, range, i);
            ranges := ranges[..i] + [range] + ranges[i..];
            return;
          }
        }
        Placed(ranges, range, |ranges|);
        assert ranges[..|ranges|] + [range] + ranges[|ranges|..] == ranges + [range];
        ranges := ranges + [range];
      }
    }

    /**
     A store insertion: the constraints are checked first, and a range that meets them changes
     the number of ranges by +1, 0 or -1 as neither, one or both neighbouring heights are stored.
     */
    method Insert(range: BlockRange) returns (r: Result<(bool, bool), BlockRangesError>)
      requires Canonical(ranges)
      modifies this
      ensures r.Ok? <==> old(Insertable(ranges, range))
      ensures r.Err? ==> ranges == old(ranges)
      ensures Canonical(ranges)
      ensures r.Ok? ==> Heights(ranges) == old(Heights(ranges)) + range.Heights()
      ensures r.Ok? ==> r.value == (range.start - 1 in old(Heights(ranges)), range.end + 1 in old(Heights(ranges)))
      ensures r.Ok? ==> |ranges| == |old(ranges)| + 1 - (if r.value.0 then 1 else 0) - (if r.value.1 then 1 else 0)
    {
      r := CheckInsertionConstraints(range);
      if r.Ok? {
        ghost var before := ranges;
        ghost var w := MergeIn(range);
        AcceptedInsertionWindow(before, range, w);
      }
    }

    /** Removes a range that need not be there: set difference on any sorted list. */
    method RemoveRelaxed(range: BlockRange) returns (r: Result<(), BlockRangesError>)
      requires Sorted(ranges)
      modifies this
      ensures r == if range.Valid() then Ok(()) else Err(InvalidBlockRange(range))
      ensures r.Err? ==> ranges == old(ranges)
      ensures Sorted(ranges)
      ensures r.Ok? ==> Heights(ranges) == old(Heights(ranges)) - range.Heights()
      ensures old(Canonical(ranges)) ==> Canonical(ranges)
    {
      if !range.Valid() {
        return Err(InvalidBlockRange(range));
      }
      var w := FindAffectedRanges(range);
      if w.None? {
        NothingAffected(ranges, range);
        return Ok(());
      }
      var (first, last) := w.value;
      var firstRange, lastRange := ranges[first], ranges[last];
      ghost var before, after := ranges[..first], ranges[last + 1..];
      ghost var right := if range.end < lastRange.end then [BlockRange(range.end + 1, lastRange.end)] else [];
      ghost var left := if firstRange.start < range.start then [BlockRange(firstRange.start, range.start - 1)] else [];
      Cut(ranges, range, first, last, left, right);
      CutHeights(ranges, range, first, last, left, right);
      Rebuilt(before, left, right, after);
      var kept := ranges[..first] + ranges[last + 1..];
      if range.end < lastRange.end {
        kept := InsertAt(kept, first, BlockRange(range.end + 1, lastRange.end));
      }
      if firstRange.start < range.start {
        kept := InsertAt(kept, first, BlockRange(firstRange.start, range.start - 1));
      }
      ranges := kept;
      r := Ok(());
    }

    /** `self + rhs`. */
    method Add(rhs: BlockRanges)
      requires Sorted(ranges) && AllValid(rhs.ranges) && rhs != this
      modifies this
      ensures Sorted(ranges)
      ensures Heights(ranges) == old(Heights(ranges)) + Heights(rhs.ranges)
      ensures old(Canonical(ranges)) ==> ranges == Union(old(ranges), rhs.ranges)
    {
      var items := rhs.ranges;
      ghost var before := Heights(ranges);
      NoHeights(before);
      assert items[..0] == [];
      for i := 0 to |items|
        invariant Sorted(ranges)
        invariant old(Canonical(ranges)) ==> Canonical(ranges)
        invariant Heights(ranges) == before + Heights(items[..i])
      {
        TakeOneMore(items, i);
        Associate(before, Heights(items[..i]), items[i].Heights());
        var ok := InsertRelaxed(items[i]);
      }
      assert items[..|items|] == items;
      if old(Canonical(ranges)) { IsUnion(old(ranges), items, ranges); }
    }

    /** `self - rhs`. */
    method Subtract(rhs: BlockRanges)
      requires Sorted(ranges) && AllValid(rhs.ranges) && rhs != this
      modifies this
      ensures Sorted(ranges)
      ensures Heights(ranges) == old(Heights(ranges)) - Heights(rhs.ranges)
      ensures old(Canonical(ranges)) ==> ranges == Difference(old(ranges), rhs.ranges)
    {
      var items := rhs.ranges;
      for i := 0 to |items|
        invariant Sorted(ranges)
        invariant old(Canonical(ranges)) ==> Canonical(ranges)
        invariant Heights(ranges) == old(Heights(ranges)) - Heights(items[..i])
      {
        TakeOneMore(items, i);
        Associate(old(Heights(ranges)), Heights(items[..i]), items[i].Heights());
        var ok := RemoveRelaxed(items[i]);
      }
      assert items[..|items|] == items;
      if old(Canonical(ranges)) { IsDifference(old(ranges), items, ranges); }
    }
  }

  function InsertAt(rs: seq<BlockRange>, i: nat, r: BlockRange): seq<BlockRange>
    requires i <= |rs|
  {
    rs[..i] + [r] + rs[i..]
  }

  /** Inserting the right remainder and then the left one at the same index orders them. */
  lemma Rebuilt(before: seq<BlockRange>, left: seq<BlockRange>, right: seq<BlockRange>, after: seq<BlockRange>)
    requires |left| <= 1 && |right| <= 1
    ensures var kept := before + after;
            var kept1 := if right != [] then InsertAt(kept, |before|, right[0]) else kept;
            var kept2 := if left != [] then InsertAt(kept1, |before|, left[0]) else kept1;
            kept2 == before + left + right + after
  {
    assert right != [] ==> right == [right[0]];
    assert left != [] ==> left == [left[0]];
  }

  ghost function WindowSize(w: Option<(nat, nat)>): int {
    if w.None? then 0 else w.value.1 - w.value.0 + 1
  }

  /**
   What an accepted insertion does to the number of ranges: it adds one, keeps it or lowers it
   by one as neither, one or both neighbouring heights are stored.
   */
  lemma AcceptedInsertionWindow(rs: seq<BlockRange>, range: BlockRange, w: Option<(nat, nat)>)
    requires Sorted(rs) && Insertable(rs, range) && IsAffectedWindow(rs, range, w)
    ensures WindowSize(w) == (if range.start - 1 in Heights(rs) then 1 else 0)
                             + (if range.end + 1 in Heights(rs) then 1 else 0)
  {
    if w.None? {
      NothingAffected(rs, range);
    } else {
      NeighboursAffected(rs, range, w.value.0, w.value.1);
    }
  }

  // ---- steps of the proofs above -------------------------------------------------------------

  lemma Associate(a: set<int>, b: set<int>, c: set<int>)
    ensures (a + b) + c == a + (b + c)
    ensures (a - b) - c == a - (b + c)
  {
  }

  lemma NoHeights(a: set<int>)
    ensures Heights([]) == {} && a + Heights([]) == a && a - Heights([]) == a
  {
  }

  lemma Unsplit(a: set<int>, b: set<int>)
    requires a !! b
    ensures (a + b) - a == b
  {
  }

  lemma DropOne(a: set<int>, b: set<int>, x: int)
    requires x !in a && x !in b
    ensures (a + {x}) + b - {x} == a + b
    ensures b + (a + {x}) - {x} == b + a
  {
  }

  lemma Absorb(before: set<int>, mid: set<int>, after: set<int>, extra: set<int>)
    ensures before + (mid + extra) + after == (before + mid + after) + extra
  {
  }

  lemma CutOut(before: set<int>, mid: set<int>, after: set<int>, left: set<int>, right: set<int>, gone: set<int>)
    requires before !! gone && after !! gone && left + right == mid - gone
    ensures ((before + left) + right) + after == (before + mid + after) - gone
  {
    assert before + (left + right) + after == (before + mid + after) - gone;
    Associate(before, left, right);
  }

  lemma AboveHead(rs: seq<BlockRange>, range: BlockRange)
    requires Sorted(rs) && rs != [] && range.Valid() && rs[|rs| - 1].end < range.start
    ensures range.Heights() * Heights(rs) == {}
    ensures range.start - 1 in Heights(rs) <==> rs[|rs| - 1].IsAdjacent(range)
    ensures range.end + 1 !in Heights(rs)
  {
    LastWindow(rs);
  }

  lemma NothingAffected(rs: seq<BlockRange>, range: BlockRange)
    requires Sorted(rs) && range.Valid() && IsAffectedWindow(rs, range, None)
    ensures range.Heights() * Heights(rs) == {}
    ensures range.start - 1 !in Heights(rs) && range.end + 1 !in Heights(rs)
    ensures Heights(rs) - range.Heights() == Heights(rs)
  {
    forall h | h in Heights(rs) ensures h < range.start - 1 || range.end + 1 < h {
      var i :| 0 <= i < |rs| && rs[i].start <= h <= rs[i].end;
      assert !rs[i].Affects(range);
    }
  }

  lemma InHeights(rs: seq<BlockRange>, i: nat)
    requires i < |rs|
    ensures rs[i].Heights() <= Heights(rs)
  {
  }

  /** Disjointness seen from the affected window alone. */
  lemma OverlapsInWindow(rs: seq<BlockRange>, range: BlockRange, first: nat, last: nat)
    requires Sorted(rs) && range.Valid() && IsAffectedWindow(rs, range, Some((first, last)))
    ensures range.Heights() * Heights(rs) == {} <==>
            forall i :: first <= i <= last ==> !rs[i].IsOverlapping(range)
  {
    if i :| first <= i <= last && rs[i].IsOverlapping(range) {
      OverlapAndAdjacency(rs[i], range);
      var h :| h in rs[i].Heights() * range.Heights();
      InHeights(rs, i);
      assert h in range.Heights() * Heights(rs);
    } else {
      forall h | h in Heights(rs) ensures h !in range.Heights() {
        var i :| 0 <= i < |rs| && rs[i].start <= h <= rs[i].end;
        assert !rs[i].IsOverlapping(range);
      }
    }
  }

  /** What the ends of the affected window say about overlaps and neighbouring heights. */
  lemma NeighboursAffected(rs: seq<BlockRange>, range: BlockRange, first: nat, last: nat)
    requires Sorted(rs) && range.Valid() && IsAffectedWindow(rs, range, Some((first, last)))
    ensures range.Heights() * Heights(rs) == {} <==>
            forall i :: first <= i <= last ==> rs[i].IsAdjacent(range)
    ensures range.Heights() * Heights(rs) == {} ==>
              && (range.start - 1 in Heights(rs) <==> rs[first].LeftOf(range))
              && (range.end + 1 in Heights(rs) <==> range.LeftOf(rs[last]))
              && (first == last || (last == first + 1 && rs[first].LeftOf(range) && range.LeftOf(rs[last])))
    ensures last > first + 1 ==> range.Heights() * Heights(rs) != {}
  {
    OverlapsInWindow(rs, range, first, last);
    assert rs[first].Affects(range) && rs[last].Affects(range);
    if first < last { assert rs[first + 1].Affects(range); }
    InHeights(rs, first);
    InHeights(rs, last);
    forall h | h in Heights(rs) && (h == range.start - 1 || h == range.end + 1)
      ensures exists i :: first <= i <= last && rs[i].start <= h <= rs[i].end
    {
      var i :| 0 <= i < |rs| && rs[i].start <= h <= rs[i].end;
      assert rs[i].Affects(range);
    }
  }

  lemma LastWindow(rs: seq<BlockRange>)
    requires Sorted(rs) && rs != []
    ensures Heights(rs) == Heights(rs[..|rs| - 1]) + rs[|rs| - 1].Heights()
    ensures Heights(rs[..|rs| - 1]) !! rs[|rs| - 1].Heights()
    ensures forall h :: h in Heights(rs) ==> h <= rs[|rs| - 1].end
    ensures rs[|rs| - 1].end in Heights(rs)
  {
    assert rs[|rs| - 1].end in rs[|rs| - 1].Heights();
  }

  lemma FirstWindow(rs: seq<BlockRange>)
    requires Sorted(rs) && rs != []
    ensures Heights(rs) == rs[0].Heights() + Heights(rs[1..])
    ensures Heights(rs[1..]) !! rs[0].Heights()
    ensures forall h :: h in Heights(rs) ==> rs[0].start <= h
    ensures rs[0].start in Heights(rs)
  {
    assert rs == [rs[0]] + rs[1..];
    HeightsConcat([rs[0]], rs[1..]);
    HeightsSingle(rs[0]);
    assert rs[0].start in rs[0].Heights();
  }

  function WithoutLast(rs: seq<BlockRange>): seq<BlockRange>
    requires Sorted(rs) && rs != []
  {
    var k, last := |rs| - 1, rs[|rs| - 1];
    if last.Len() == 1 then rs[..k] else rs[..k] + [BlockRange(last.start, last.end - 1)]
  }

  function WithoutFirst(rs: seq<BlockRange>): seq<BlockRange>
    requires Sorted(rs) && rs != []
  {
    var first := rs[0];
    if first.Len() == 1 then rs[1..] else [BlockRange(first.start + 1, first.end)] + rs[1..]
  }

  lemma WithoutLastSpaced(rs: seq<BlockRange>, gap: nat)
    requires Spaced(rs, gap) && Sorted(rs) && rs != []
    ensures Spaced(WithoutLast(rs), gap)
  {
  }

  lemma WithoutFirstSpaced(rs: seq<BlockRange>, gap: nat)
    requires Spaced(rs, gap) && Sorted(rs) && rs != []
    ensures Spaced(WithoutFirst(rs), gap)
  {
  }

  lemma PopLast(rs: seq<BlockRange>)
    requires Sorted(rs) && rs != []
    ensures rs[|rs| - 1].end in Heights(rs)
    ensures forall h :: h in Heights(rs) ==> h <= rs[|rs| - 1].end
    ensures Heights(WithoutLast(rs)) == Heights(rs) - {rs[|rs| - 1].end as int}
  {
    LastWindow(rs);
    var k, last := |rs| - 1, rs[|rs| - 1];
    var shorter := Span(last.start, last.end - 1);
    SpanEnds(last.start, last.end);
    assert last.end in last.Heights();
    DropOne(shorter, Heights(rs[..k]), last.end);
    if last.Len() > 1 {
      HeightsConcat(rs[..k], [BlockRange(last.start, last.end - 1)]);
      HeightsSingle(BlockRange(last.start, last.end - 1));
    } else {
      assert shorter == {};
    }
  }

  lemma PopFirst(rs: seq<BlockRange>)
    requires Sorted(rs) && rs != []
    ensures rs[0].start in Heights(rs)
    ensures forall h :: h in Heights(rs) ==> rs[0].start <= h
    ensures Heights(WithoutFirst(rs)) == Heights(rs) - {rs[0].start as int}
  {
    FirstWindow(rs);
    var first := rs[0];
    var shorter := Span(first.start + 1, first.end);
    SpanEnds(first.start, first.end);
    assert first.start in first.Heights();
    DropOne(shorter, Heights(rs[1..]), first.start);
    if first.Len() > 1 {
      HeightsConcat([BlockRange(first.start + 1, first.end)], rs[1..]);
      HeightsSingle(BlockRange(first.start + 1, first.end));
    } else {
      assert shorter == {};
    }
  }

  lemma ConcatSpaced(a: seq<BlockRange>, b: seq<BlockRange>, gap: nat)
    requires Spaced(a, gap) && Spaced(b, gap)
    requires forall i, j :: 0 <= i < |a| && 0 <= j < |b| ==> a[i].end + gap < b[j].start
    ensures Spaced(a + b, gap)
  {
  }

  /** A range replacing a window of a list, far enough from what stays on both sides. */
  lemma Spliced(rs: seq<BlockRange>, first: nat, next: nat, mid: BlockRange, gap: nat)
    requires Spaced(rs, gap) && first <= next <= |rs| && mid.Valid()
    requires forall i :: 0 <= i < first ==> rs[i].end + gap < mid.start
    requires forall i :: next <= i < |rs| ==> mid.end + gap < rs[i].start
    ensures Spaced(rs[..first] + [mid] + rs[next..], gap)
  {
    ConcatSpaced(rs[..first], [mid], gap);
    ConcatSpaced(rs[..first] + [mid], rs[next..], gap);
  }

  lemma SplicedHeights(before: seq<BlockRange>, mid: BlockRange, after: seq<BlockRange>)
    ensures Heights(before + [mid] + after) == Heights(before) + mid.Heights() + Heights(after)
  {
    HeightsConcat(before, [mid]);
    HeightsSingle(mid);
    HeightsConcat(before + [mid], after);
  }

  /** Merging an affected window with `range`. */
  lemma Merged(rs: seq<BlockRange>, range: BlockRange, first: nat, last: nat, hull: BlockRange)
    requires Sorted(rs) && range.Valid() && IsAffectedWindow(rs, range, Some((first, last)))
    requires hull == BlockRange(Min(rs[first].start, range.start), Max(rs[last].end, range.end))
    ensures Sorted(rs[..first] + [hull] + rs[last + 1..])
    ensures Canonical(rs) ==> Canonical(rs[..first] + [hull] + rs[last + 1..])
  {
    Outside(rs, range, first, last);
    Spliced(rs, first, last + 1, hull, 0);
    if Canonical(rs) { Spliced(rs, first, last + 1, hull, 1); }
  }

  lemma MergedHeights(rs: seq<BlockRange>, range: BlockRange, first: nat, last: nat, hull: BlockRange)
    requires Sorted(rs) && range.Valid() && IsAffectedWindow(rs, range, Some((first, last)))
    requires hull == BlockRange(Min(rs[first].start, range.start), Max(rs[last].end, range.end))
    ensures Heights(rs[..first] + [hull] + rs[last + 1..]) == Heights(rs) + range.Heights()
  {
    HullCovers(rs, range, first, last);
    ReplacedHeights(rs, first, last, hull, range.Heights());
  }

  /** Replacing a window of ranges by one that covers it and `extra` adds `extra`. */
  lemma ReplacedHeights(rs: seq<BlockRange>, first: nat, last: nat, hull: BlockRange, extra: set<int>)
    requires first <= last < |rs| && hull.Heights() == Heights(rs[first..last + 1]) + extra
    ensures Heights(rs[..first] + [hull] + rs[last + 1..]) == Heights(rs) + extra
  {
    SplicedHeights(rs[..first], hull, rs[last + 1..]);
    HeightsWindow(rs, first, last + 1);
    Absorb(Heights(rs[..first]), Heights(rs[first..last + 1]), Heights(rs[last + 1..]), extra);
  }

  /** Ranges outside the affected window stay clear of `range` by more than one height. */
  lemma Outside(rs: seq<BlockRange>, range: BlockRange, first: nat, last: nat)
    requires Sorted(rs) && range.Valid() && IsAffectedWindow(rs, range, Some((first, last)))
    ensures forall i :: 0 <= i < first ==> rs[i].end + 1 < range.start
    ensures forall i :: last < i < |rs| ==> range.end + 1 < rs[i].start
  {
    assert rs[first].Affects(range) && rs[last].Affects(range);
    assert forall i :: 0 <= i < |rs| ==> (rs[i].Affects(range) <==> first <= i <= last);
  }

  lemma OutsideHeights(rs: seq<BlockRange>, range: BlockRange, first: nat, last: nat)
    requires Sorted(rs) && range.Valid() && IsAffectedWindow(rs, range, Some((first, last)))
    ensures Heights(rs[..first]) !! range.Heights()
    ensures Heights(rs[last + 1..]) !! range.Heights()
  {
    Outside(rs, range, first, last);
  }

  /** Putting an unaffecting range between its neighbours. */
  lemma Placed(rs: seq<BlockRange>, range: BlockRange, i: nat)
    requires Sorted(rs) && range.Valid() && IsAffectedWindow(rs, range, None)
    requires i <= |rs| && (forall k :: 0 <= k < i ==> rs[k].end < range.start)
    requires i < |rs| ==> range.end < rs[i].start
    ensures Sorted(rs[..i] + [range] + rs[i..])
    ensures Canonical(rs) ==> Canonical(rs[..i] + [range] + rs[i..])
    ensures Heights(rs[..i] + [range] + rs[i..]) == Heights(rs) + range.Heights()
  {
    assert forall k :: 0 <= k < |rs| ==> !rs[k].Affects(range);
    Spliced(rs, i, i, range, 0);
    if Canonical(rs) { Spliced(rs, i, i, range, 1); }
    SplicedHeights(rs[..i], range, rs[i..]);
    HeightsWindow(rs, i, i);
    assert Heights(rs[i..i]) == {};
  }

  /** What is left of an affected window after cutting `range` out of it. */
  lemma CutWindow(rs: seq<BlockRange>, range: BlockRange, first: nat, last: nat,
                  left: seq<BlockRange>, right: seq<BlockRange>)
    requires Sorted(rs) && range.Valid() && IsAffectedWindow(rs, range, Some((first, last)))
    requires right == if range.end < rs[last].end then [BlockRange(range.end + 1, rs[last].end)] else []
    requires left == if rs[first].start < range.start then [BlockRange(rs[first].start, range.start - 1)] else []
    ensures Heights(left) + Heights(right) == Heights(rs[first..last + 1]) - range.Heights()
  {
    if left != [] { HeightsSingle(left[0]); }
    if right != [] { HeightsSingle(right[0]); }
    HullCovers(rs, range, first, last);
    var hull := Span(Min(rs[first].start, range.start), Max(rs[last].end, range.end));
    assert Heights(left) + Heights(right) == hull - range.Heights();
  }

  /** Cutting `range` out of a list. */
  lemma Cut(rs: seq<BlockRange>, range: BlockRange, first: nat, last: nat,
            left: seq<BlockRange>, right: seq<BlockRange>)
    requires Sorted(rs) && range.Valid() && IsAffectedWindow(rs, range, Some((first, last)))
    requires right == if range.end < rs[last].end then [BlockRange(range.end + 1, rs[last].end)] else []
    requires left == if rs[first].start < range.start then [BlockRange(rs[first].start, range.start - 1)] else []
    ensures Sorted(rs[..first] + left + right + rs[last + 1..])
    ensures Canonical(rs) ==> Canonical(rs[..first] + left + right + rs[last + 1..])
  {
    assert rs[first].Affects(range) && rs[last].Affects(range);
    CutSpaced(rs, first, last, left, right, 0);
    if Canonical(rs) { CutSpaced(rs, first, last, left, right, 1); }
  }

  lemma CutHeights(rs: seq<BlockRange>, range: BlockRange, first: nat, last: nat,
                   left: seq<BlockRange>, right: seq<BlockRange>)
    requires Sorted(rs) && range.Valid() && IsAffectedWindow(rs, range, Some((first, last)))
    requires right == if range.end < rs[last].end then [BlockRange(range.end + 1, rs[last].end)] else []
    requires left == if rs[first].start < range.start then [BlockRange(rs[first].start, range.start - 1)] else []
    ensures Heights(rs[..first] + left + right + rs[last + 1..]) == Heights(rs) - range.Heights()
  {
    CutWindow(rs, range, first, last, left, right);
    OutsideHeights(rs, range, first, last);
    RemainingHeights(rs, first, last, left, right, range.Heights());
  }

  /** Replacing a window of ranges by what is left of it without `gone` removes `gone`. */
  lemma RemainingHeights(rs: seq<BlockRange>, first: nat, last: nat,
                         left: seq<BlockRange>, right: seq<BlockRange>, gone: set<int>)
    requires first <= last < |rs| && Heights(left) + Heights(right) == Heights(rs[first..last + 1]) - gone
    requires Heights(rs[..first]) !! gone && Heights(rs[last + 1..]) !! gone
    ensures Heights(rs[..first] + left + right + rs[last + 1..]) == Heights(rs) - gone
  {
    var before, after := rs[..first], rs[last + 1..];
    HeightsWindow(rs, first, last + 1);
    CutOut(Heights(before), Heights(rs[first..last + 1]), Heights(after), Heights(left), Heights(right), gone);
    HeightsConcat(before, left);
    HeightsConcat(before + left, right);
    HeightsConcat(before + left + right, after);
  }

  lemma CutSpaced(rs: seq<BlockRange>, first: nat, last: nat,
                  left: seq<BlockRange>, right: seq<BlockRange>, gap: nat)
    requires Spaced(rs, gap) && first <= last < |rs| && gap <= 1
    requires |left| <= 1 && |right| <= 1
    requires forall i :: 0 <= i < |left| ==> left[i].Valid() && left[i].start == rs[first].start && left[i].end <= rs[last].end
    requires forall i :: 0 <= i < |right| ==> right[i].Valid() && right[i].end == rs[last].end && rs[first].start <= right[i].start
    requires forall i, j :: 0 <= i < |left| && 0 <= j < |right| ==> left[i].end + 1 < right[j].start
    ensures Spaced(rs[..first] + left + right + rs[last + 1..], gap)
  {
    ConcatSpaced(rs[..first], left, gap);
    ConcatSpaced(rs[..first] + left, right, gap);
    ConcatSpaced(rs[..first] + left + right, rs[last + 1..], gap);
  }

  lemma TakeOneMore(rs: seq<BlockRange>, i: nat)
    requires i < |rs|
    ensures Heights(rs[..i + 1]) == Heights(rs[..i]) + rs[i].Heights()
  {
    assert rs[..i + 1] == rs[..i] + [rs[i]];
    HeightsConcat(rs[..i], [rs[i]]);
    HeightsSingle(rs[i]);
  }
}
