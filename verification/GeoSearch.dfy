/**
  Geo search at the level of integers: the score range of a cell, the ranges of a cell
  and its neighbours, and the merging of ranges.
 */
module GeoSearch {
  import opened Morton

  const GEO_STEP := 26
  const U64_MAX := 0xFFFF_FFFF_FFFF_FFFF

  function Pow(base: nat, n: nat): (r: nat)
    requires base > 0
    ensures r > 0
  {
    if n == 0 then 1 else base * Pow(base, n - 1)
  }

  // ----- Division -----------------------------------------------------------------------------

  lemma QuotientIs(x: nat, p: nat, m: nat)
    requires m > 0
    ensures p * m <= x <= (p + 1) * m - 1 <==> x / m == p
  {
    var q := x / m;
    assert q * m <= x < (q + 1) * m;
    if p * m <= x <= (p + 1) * m - 1 {
      if q < p {
        ProductGrows(q + 1, p, m);
      } else if p < q {
        ProductGrows(p + 1, q, m);
      }
    }
  }

  lemma ProductGrows(a: nat, b: nat, m: nat)
    requires a <= b
    ensures a * m <= b * m
  {
  }

  lemma Swap(a: nat, q: nat, m: nat)
    ensures a * (q * m) == q * (a * m)
  {
  }

  lemma QuotientOfQuotient(x: nat, a: nat, m: nat)
    requires a > 0 && m > 0
    ensures a * m > 0 && x / (a * m) == x / a / m
  {
    var y := x / a;
    var q := y / m;
    QuotientIs(y, q, m);
    QuotientIs(x, y, a);
    ScaledBounds(x, a, y, q, m);
    QuotientIs(x, q, a * m);
  }

  lemma ScaledBounds(x: nat, a: nat, y: nat, q: nat, m: nat)
    requires a > 0 && m > 0 && q * m <= y < (q + 1) * m && y * a <= x < (y + 1) * a
    ensures a * m > 0 && q * (a * m) <= x < (q + 1) * (a * m)
  {
    ProductGrows(q * m, y, a);
    ProductGrows(y + 1, (q + 1) * m, a);
    Swap(a, q, m);
    Swap(a, q + 1, m);
    assert (q * m) * a == a * (q * m) && ((q + 1) * m) * a == a * ((q + 1) * m);
  }

  // ----- Cells -----------------------------------------------------------------------------------

  datatype Range = Range(min: nat, max: nat)

  predicate InRange(r: Range, x: nat) {
    r.min <= x <= r.max
  }

  predicate Covers(ranges: seq<Range>, x: nat) {
    exists i :: 0 <= i < |ranges| && InRange(ranges[i], x)
  }

  predicate ValidStep(step: nat) {
    1 <= step <= GEO_STEP
  }

  function Cells(step: nat): (r: nat)
    ensures r > 0
  {
    Pow(2, step)
  }

  function ScoreRange(lat: nat, lon: nat, step: nat): Range
    requires ValidStep(step)
  {
    var prefix := Weave(lat % Cells(step), lon % Cells(step));
    var scale := Pow(4, GEO_STEP - step);
    Range(prefix * scale, (prefix + 1) * scale - 1)
  }

  /** The cell of a score: the leading bits of its two coordinates. */
  function LatCell(x: nat, step: nat): nat
    requires ValidStep(step)
  {
    Evens(x) / Pow(2, GEO_STEP - step)
  }

  function LonCell(x: nat, step: nat): nat
    requires ValidStep(step)
  {
    Odds(x) / Pow(2, GEO_STEP - step)
  }

  /** Dropping digit pairs of a number drops that many of its even digits. */
  lemma {:induction false} EvensOfPrefix(x: nat, k: nat)
    ensures Evens(x / Pow(4, k)) == Evens(x) / Pow(2, k)
    decreases k
  {
    hide Evens;
    if k > 0 {
      EvensOfPrefix(x / 4, k - 1);
      QuotientOfQuotient(x, 4, Pow(4, k - 1));
      EvensOf(x);
      OneDigit(x % 2, Evens(x / 4));
      QuotientOfQuotient(Evens(x), 2, Pow(2, k - 1));
    }
  }

  lemma OddsOfPrefix(x: nat, k: nat)
    ensures Odds(x / Pow(4, k)) == Odds(x) / Pow(2, k)
  {
    hide Evens, Pow;
    EvensOfPrefix(x / 2, k);
    QuotientOfQuotient(x, 2, Pow(4, k));
    QuotientOfQuotient(x, Pow(4, k), 2);
    assert 2 * Pow(4, k) == Pow(4, k) * 2;
  }

  /** A score is in a cell's range exactly when its coordinates are in the cell. */
  lemma CellExact(x: nat, lat: nat, lon: nat, step: nat)
    requires ValidStep(step)
    ensures InRange(ScoreRange(lat, lon, step), x) <==>
            LatCell(x, step) == lat % Cells(step) && LonCell(x, step) == lon % Cells(step)
  {
    hide Evens, Weave, Pow;
    var a, b, k := lat % Cells(step), lon % Cells(step), GEO_STEP - step;
    var y := x / Pow(4, k);
    QuotientIs(x, Weave(a, b), Pow(4, k));
    EvensOfPrefix(x, k);
    OddsOfPrefix(x, k);
    WeaveSplits(a, b);
    SplitWeaves(y);
  }

  // ----- Merging ---------------------------------------------------------------------------------

  predicate Proper(ranges: seq<Range>) {
    forall i :: 0 <= i < |ranges| ==> ranges[i].min <= ranges[i].max <= U64_MAX
  }

  predicate SortedByMin(ranges: seq<Range>) {
    forall i, j :: 0 <= i < j < |ranges| ==> ranges[i].min <= ranges[j].min
  }

  /** Sorted, disjoint, and with a gap between any two. */
  predicate Apart(ranges: seq<Range>) {
    forall i, j :: 0 <= i < j < |ranges| ==> ranges[i].max + 1 < ranges[j].min
  }

  predicate RangeLess(a: Range, b: Range) {
    a.min < b.min || (a.min == b.min && a.max < b.max)
  }

  /** Puts a range after the last one that is not above it. */
  method InsertRange(sorted: seq<Range>, r: Range) returns (s: seq<Range>)
    requires SortedByMin(sorted)
    ensures SortedByMin(s) && multiset(s) == multiset(sorted) + multiset{r}
  {
    var at := |sorted|;
    while at > 0 && RangeLess(r, sorted[at - 1])
      invariant 0 <= at <= |sorted|
      invariant forall j :: at <= j < |sorted| ==> r.min <= sorted[j].min
    {
      at := at - 1;
    }
    s := sorted[..at] + [r] + sorted[at..];
    SplicedMultiset(sorted, at, r);
    assert at > 0 ==> sorted[at - 1].min <= r.min;
    SplicedSorted(sorted, at, r);
  }

  lemma SplicedMultiset(sorted: seq<Range>, at: nat, r: Range)
    requires at <= |sorted|
    ensures multiset(sorted[..at] + [r] + sorted[at..]) == multiset(sorted) + multiset{r}
  {
    assert sorted == sorted[..at] + sorted[at..];
  }

  lemma SplicedSorted(sorted: seq<Range>, at: nat, r: Range)
    requires SortedByMin(sorted) && at <= |sorted|
    requires at > 0 ==> sorted[at - 1].min <= r.min
    requires forall j :: at <= j < |sorted| ==> r.min <= sorted[j].min
    ensures SortedByMin(sorted[..at] + [r] + sorted[at..])
  {
    forall j | 0 <= j < at ensures sorted[j].min <= r.min {
      assert sorted[j].min <= sorted[at - 1].min;
    }
    var s := sorted[..at] + [r] + sorted[at..];
    assert forall j :: 0 <= j < |s| ==> s[j] == if j < at then sorted[j] else if j == at then r else sorted[j - 1];
  }

  method SortRanges(ranges: seq<Range>) returns (sorted: seq<Range>)
    ensures multiset(sorted) == multiset(ranges)
    ensures SortedByMin(sorted)
  {
    sorted := [];
    for i := 0 to |ranges|
      invariant multiset(sorted) == multiset(ranges[..i])
      invariant SortedByMin(sorted)
    {
      assert ranges[..i + 1] == ranges[..i] + [ranges[i]];
      sorted := InsertRange(sorted, ranges[i]);
    }
    assert ranges[..|ranges|] == ranges;
  }

  lemma CoversSnoc(ranges: seq<Range>, r: Range, x: nat)
    ensures Covers(ranges + [r], x) <==> Covers(ranges, x) || InRange(r, x)
  {
    var all := ranges + [r];
    if Covers(ranges, x) {
      var i :| 0 <= i < |ranges| && InRange(ranges[i], x);
      assert InRange(all[i], x);
    }
    if InRange(r, x) {
      assert InRange(all[|ranges|], x);
    }
  }

  lemma CoversSplit(ranges: seq<Range>, x: nat)
    requires ranges != []
    ensures var n := |ranges| - 1;
            Covers(ranges, x) <==> Covers(ranges[..n], x) || InRange(ranges[n], x)
  {
    assert ranges == ranges[..|ranges| - 1] + [ranges[|ranges| - 1]];
    CoversSnoc(ranges[..|ranges| - 1], ranges[|ranges| - 1], x);
  }

  lemma SameCover(a: seq<Range>, b: seq<Range>, x: nat)
    requires multiset(a) == multiset(b)
    ensures Covers(a, x) <==> Covers(b, x)
  {
    if Covers(a, x) {
      var i :| 0 <= i < |a| && InRange(a[i], x);
      assert a[i] in multiset(b);
    }
    if Covers(b, x) {
      var i :| 0 <= i < |b| && InRange(b[i], x);
      assert b[i] in multiset(a);
    }
  }

  lemma SameProper(a: seq<Range>, b: seq<Range>)
    requires multiset(a) == multiset(b) && Proper(a)
    ensures Proper(b)
  {
    forall i | 0 <= i < |b| ensures b[i].min <= b[i].max <= U64_MAX {
      assert b[i] in multiset(a);
    }
  }

  /** What one more range of a sorted list does to what is merged so far. */
  function Absorbed(merged: seq<Range>, r: Range): seq<Range> {
    var n := |merged| - 1;
    if n >= 0 && (r.min <= merged[n].max || (merged[n].max != U64_MAX && r.min == merged[n].max + 1))
    then (if r.max > merged[n].max then merged[n := merged[n].(max := r.max)] else merged)
    else merged + [r]
  }

  lemma AbsorbedKeeps(merged: seq<Range>, r: Range)
    requires Apart(merged) && Proper(merged) && r.min <= r.max <= U64_MAX
    requires merged != [] ==> merged[|merged| - 1].min <= r.min
    ensures Apart(Absorbed(merged, r)) && Proper(Absorbed(merged, r)) && Absorbed(merged, r) != []
    ensures Absorbed(merged, r)[|Absorbed(merged, r)| - 1].min <= r.min
    ensures forall x: nat :: Covers(Absorbed(merged, r), x) <==> Covers(merged, x) || InRange(r, x)
  {
    var n, after := |merged| - 1, Absorbed(merged, r);
    forall x: nat ensures Covers(after, x) <==> Covers(merged, x) || InRange(r, x) {
      CoversSnoc(merged, r, x);
      if n >= 0 {
        CoversSplit(merged, x);
        CoversSplit(after, x);
        assert |after| == |merged| ==> after[..n] == merged[..n];
      }
    }
  }

  /** Coalesces overlapping and adjacent ranges. */
  method MergeRanges(ranges: seq<Range>) returns (merged: seq<Range>)
    requires Proper(ranges)
    ensures Apart(merged) && Proper(merged)
    ensures forall x: nat :: Covers(merged, x) <==> Covers(ranges, x)
    ensures ranges != [] ==> merged != []
  {
    if |ranges| <= 1 {
      return ranges;
    }
    hide Covers, Absorbed;
    var sorted := SortRanges(ranges);
    SameProper(ranges, sorted);
    merged := [];
    NothingCovered();
    for i := 0 to |sorted|
      invariant Apart(merged) && Proper(merged)
      invariant i > 0 <==> merged != []
      invariant merged != [] && i < |sorted| ==> merged[|merged| - 1].min <= sorted[i].min
      invariant forall x: nat :: Covers(merged, x) <==> Covers(sorted[..i], x)
    {
      var r := sorted[i];
      AbsorbedKeeps(merged, r);
      merged := Absorbed(merged, r);
      assert sorted[..i + 1] == sorted[..i] + [r];
      forall x: nat ensures Covers(sorted[..i + 1], x) <==> Covers(sorted[..i], x) || InRange(r, x) {
        CoversSnoc(sorted[..i], r, x);
      }
    }
    assert sorted[..|sorted|] == sorted;
    forall x: nat ensures Covers(sorted, x) <==> Covers(ranges, x) {
      SameCover(sorted, ranges, x);
    }
    assert |sorted| == |ranges| by {
      assert |multiset(sorted)| == |multiset(ranges)|;
    }
  }

  lemma NothingCovered()
    ensures forall x: nat :: !Covers([], x)
  {
  }

  // ----- The cell and its neighbours -------------------------------------------------------------

  /** Within one cell, wrapping around. */
  predicate NextTo(cell: nat, center: nat, cells: nat)
    requires cells > 0
  {
    cell == (center + cells - 1) % cells || cell == center % cells || cell == (center + 1) % cells
  }

  /** The score lies in the centre cell or one of its eight neighbours. */
  predicate Near(x: nat, lat: nat, lon: nat, step: nat)
    requires ValidStep(step)
  {
    && lat <= LatCell(x, step) + 1 && LatCell(x, step) <= lat + 1
    && NextTo(LonCell(x, step), lon, Cells(step))
  }

  lemma {:induction false} PowGrows(base: nat, a: nat, b: nat)
    requires base > 0
    ensures Pow(base, a + b) == Pow(base, a) * Pow(base, b)
    decreases a
  {
    if a > 0 {
      PowGrows(base, a - 1, b);
      assert Pow(base, a + b) == base * (Pow(base, a - 1) * Pow(base, b));
      assert base * (Pow(base, a - 1) * Pow(base, b)) == (base * Pow(base, a - 1)) * Pow(base, b);
    }
  }

  lemma {:induction false} EvensBound(x: nat, n: nat)
    requires x < Pow(4, n)
    ensures Evens(x) < Pow(2, n)
    decreases n
  {
    hide Evens;
    EvensOf(x);
    if n == 0 {
      EvensZero();
    } else {
      assert x / 4 < Pow(4, n - 1);
      EvensBound(x / 4, n - 1);
    }
  }

  lemma EvensZero()
    ensures Evens(0) == 0
  {
  }

  /** The 52-bit scores are exactly the numbers whose cell is on the grid. */
  lemma CellOnGrid(x: nat, step: nat)
    requires ValidStep(step)
    ensures x < Pow(4, GEO_STEP) <==> LatCell(x, step) < Cells(step) && LonCell(x, step) < Cells(step)
  {
    hide Evens, Pow, Weave;
    PowGrows(2, step, GEO_STEP - step);
    assert step + (GEO_STEP - step) == GEO_STEP;
    BelowProduct(Evens(x), Cells(step), Pow(2, GEO_STEP - step));
    BelowProduct(Odds(x), Cells(step), Pow(2, GEO_STEP - step));
    if x < Pow(4, GEO_STEP) {
      EvensBound(x, GEO_STEP);
      EvensBound(x / 2, GEO_STEP);
    }
    if Evens(x) < Pow(2, GEO_STEP) && Odds(x) < Pow(2, GEO_STEP) {
      SplitWeaves(x);
      WeaveBound(Evens(x), Odds(x), GEO_STEP);
    }
  }

  lemma BelowProduct(v: nat, a: nat, m: nat)
    requires m > 0
    ensures v < a * m <==> v / m < a
  {
    QuotientIs(v, v / m, m);
    if v / m < a {
      ProductGrows(v / m + 1, a, m);
    } else {
      ProductGrows(a, v / m, m);
    }
  }

  /** The range of a cell on the grid is a proper range of 52-bit scores. */
  lemma RangeOnGrid(lat: nat, lon: nat, step: nat)
    requires ValidStep(step)
    ensures var r := ScoreRange(lat, lon, step);
            r.min <= r.max < Pow(4, GEO_STEP)
  {
    hide Evens, Weave, Pow;
    var a, b, k := lat % Cells(step), lon % Cells(step), GEO_STEP - step;
    WeaveBound(a, b, step);
    PowGrows(4, step, k);
    assert step + k == GEO_STEP;
    ProductGrows(Weave(a, b) + 1, Pow(4, step), Pow(4, k));
    assert (Weave(a, b) + 1) * Pow(4, k) == Weave(a, b) * Pow(4, k) + Pow(4, k);
  }

  lemma {:induction false} WeaveBound(a: nat, b: nat, n: nat)
    requires a < Pow(2, n) && b < Pow(2, n)
    ensures Weave(a, b) < Pow(4, n)
    decreases n
  {
    hide Weave;
    if n == 0 {
      WeaveZero();
    } else {
      assert a / 2 < Pow(2, n - 1) && b / 2 < Pow(2, n - 1);
      WeaveBound(a / 2, b / 2, n - 1);
      WeaveOf(a, b);
    }
  }

  lemma ScoresFit()
    ensures Pow(4, GEO_STEP) == 0x10_0000_0000_0000
  {
    PowGrows(4, 13, 13);
    assert Pow(4, 13) == 67108864 by {
      PowGrows(4, 6, 7);
      assert Pow(4, 6) == 4096;
      assert Pow(4, 7) == 16384;
    }
  }

  /** One row of three cells, longitude wrapping around the antimeridian. */
  method AddRow(ranges: seq<Range>, lat: nat, lon: nat, step: nat) returns (r: seq<Range>)
    requires ValidStep(step) && lat < Cells(step) && lon < Cells(step) && Proper(ranges)
    ensures Proper(r) && |r| == |ranges| + 3
    ensures forall x: nat :: Covers(r, x) <==>
              Covers(ranges, x) || (LatCell(x, step) == lat && NextTo(LonCell(x, step), lon, Cells(step)))
  {
    hide Covers, ScoreRange, LatCell, LonCell, Cells, Pow, ColumnAt, NextTo;
    var cells := Cells(step);
    r := ranges;
    var d := 0;
    while d < 3
      invariant 0 <= d <= 3 && |r| == |ranges| + d && Proper(r)
      invariant forall x: nat :: Covers(r, x) <==> Covers(ranges, x) || (LatCell(x, step) == lat && Reached(LonCell(x, step), lon, cells, d))
    {
      var lonI := ColumnAt(lon, cells, d);
      var range := ScoreRange(lat, lonI, step);
      RangeOnGrid(lat, lonI, step);
      ScoresFit();
      forall x: nat ensures Covers(r + [range], x) <==> Covers(r, x) || (LatCell(x, step) == lat && LonCell(x, step) == lonI) {
        CoversSnoc(r, range, x);
        OneCell(x, lat, lon, step, d);
      }
      r := r + [range];
      d := d + 1;
    }
    forall cell: nat ensures Reached(cell, lon, cells, 3) <==> NextTo(cell, lon, cells) {
      ReachedAll(cell, lon, cells);
    }
  }

  /** The columns of a row, west to east: the one before the centre, the centre, the one after. */
  function ColumnAt(center: nat, cells: nat, d: nat): (c: nat)
    requires cells > 0
    ensures c < cells
  {
    (center + (cells - 1) + d) % cells
  }

  lemma OneCell(x: nat, lat: nat, lon: nat, step: nat, d: nat)
    requires ValidStep(step) && lat < Cells(step)
    ensures InRange(ScoreRange(lat, ColumnAt(lon, Cells(step), d), step), x) <==>
            LatCell(x, step) == lat && LonCell(x, step) == ColumnAt(lon, Cells(step), d)
  {
    hide ScoreRange, LatCell, LonCell, Pow, Cells, ColumnAt;
    CellExact(x, lat, ColumnAt(lon, Cells(step), d), step);
    SmallStays(lat, Cells(step));
    SmallStays(ColumnAt(lon, Cells(step), d), Cells(step));
  }

  lemma SmallStays(v: nat, m: nat)
    requires v < m
    ensures v % m == v
  {
  }

  /** The cell is one of the first `d` of the three in a row. */
  predicate Reached(cell: nat, center: nat, cells: nat, d: nat)
    requires cells > 0
  {
    || (d > 0 && cell == ColumnAt(center, cells, 0))
    || (d > 1 && cell == ColumnAt(center, cells, 1))
    || (d > 2 && cell == ColumnAt(center, cells, 2))
  }

  lemma ReachedAll(cell: nat, center: nat, cells: nat)
    requires cells > 0 && center < cells
    ensures Reached(cell, center, cells, 3) <==> NextTo(cell, center, cells)
  {
    WrapsOnce(center, cells);
    WrapsOnce(center + 1, cells);
    assert center + (cells - 1) + 1 == center + cells && center + (cells - 1) + 2 == center + 1 + cells;
  }

  lemma WrapsOnce(v: nat, cells: nat)
    requires cells > 0
    ensures (v + cells) % cells == v % cells
  {
    var q := v / cells;
    assert v == q * cells + v % cells;
    assert v + cells == (q + 1) * cells + v % cells;
    QuotientIs(v + cells, q + 1, cells);
  }

  lemma NextToOnGrid(cell: nat, center: nat, cells: nat)
    requires cells > 0
    ensures NextTo(cell, center, cells) ==> cell < cells
  {
  }

  /**
    Search ranges are exact: they cover a 52-bit score exactly when it lies in the centre
    cell or a neighbour, latitude stopping at the poles and longitude wrapping around; and
    they come out sorted, disjoint and with gaps between them.
   */
  method SearchRanges(lat: nat, lon: nat, step: nat) returns (ranges: seq<Range>)
    requires ValidStep(step) && lat < Cells(step) && lon < Cells(step)
    ensures Apart(ranges) && ranges != []
    ensures forall x: nat :: Covers(ranges, x) <==> x < Pow(4, GEO_STEP) && Near(x, lat, lon, step)
  {
    hide Covers, LatCell, LonCell, Pow, NextTo;
    var maxIdx := Cells(step) - 1;
    var all: seq<Range> := [];
    NothingCovered();
    var d := -1;
    while d <= 1
      invariant -1 <= d <= 2 && Proper(all)
      invariant d > 0 ==> all != []
      invariant forall x: nat :: Covers(all, x) <==>
                  lat - 1 <= LatCell(x, step) < lat + d && LatCell(x, step) <= maxIdx &&
                  NextTo(LonCell(x, step), lon, Cells(step))
      decreases 2 - d
    {
      var latI := lat + d;
      if 0 <= latI <= maxIdx {
        all := AddRow(all, latI, lon, step);
      }
      d := d + 1;
    }
    forall x: nat ensures Covers(all, x) <==> x < Pow(4, GEO_STEP) && Near(x, lat, lon, step) {
      CellOnGrid(x, step);
      NextToOnGrid(LonCell(x, step), lon, Cells(step));
    }
    ranges := MergeRanges(all);
  }
}
