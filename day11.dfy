/**
 * Day 11: galaxies in an expanding image. Every row and every column without a
 * galaxy counts as a million rows or columns; the distance between two
 * galaxies is the number of rows plus the number of columns between them,
 * with that weighting.
 */
module Day11 {

  /** `Point`: a row and a column (`usize` in the source). */
  datatype Point = Point(r: nat, c: nat)

  /** How much one empty row or column counts for. */
  const Expansion: nat := 1000000

  // ---------------------------------------------------------------------
  // Reading the image
  // ---------------------------------------------------------------------

  /** `Raw::from_str`: a cell holds a galaxy exactly when its character is `#`. */
  function RawOf(lines: seq<string>): (raw: seq<seq<bool>>)
    ensures |raw| == |lines|
    ensures forall r :: 0 <= r < |lines| ==> |raw[r]| == |lines[r]|
    ensures forall r, c :: 0 <= r < |lines| && 0 <= c < |lines[r]| ==> (raw[r][c] <==> lines[r][c] == '#')
  {
    seq(|lines|, r requires 0 <= r < |lines| => seq(|lines[r]|, c requires 0 <= c < |lines[r]| => lines[r][c] == '#'))
  }

  /** `Raw::from_str`: row by row, character by character. */
  method ParseRaw(lines: seq<string>) returns (raw: seq<seq<bool>>)
    ensures raw == RawOf(lines)
  {
    raw := [];
    for r := 0 to |lines|
      invariant raw == RawOf(lines[..r])
    {
      var row: seq<bool> := [];
      for c := 0 to |lines[r]|
        invariant row == seq(c, k requires 0 <= k < c => lines[r][k] == '#')
      {
        row := row + [lines[r][c] == '#'];
      }
      raw := raw + [row];
    }
    assert lines[..|lines|] == lines;
  }

  /** The image drawn with `#` for galaxies and `.` elsewhere. */
  function Draw(raw: seq<seq<bool>>): (lines: seq<string>)
    ensures |lines| == |raw|
  {
    seq(|raw|, r requires 0 <= r < |raw| => seq(|raw[r]|, c requires 0 <= c < |raw[r]| => if raw[r][c] then '#' else '.'))
  }

  /** Reading a drawn image gives it back; drawing a read image gives back text made of `#` and `.`. */
  lemma DrawRoundTrip(raw: seq<seq<bool>>, lines: seq<string>)
    ensures RawOf(Draw(raw)) == raw
    ensures (forall r, c :: 0 <= r < |lines| && 0 <= c < |lines[r]| ==> lines[r][c] in "#.") ==>
      Draw(RawOf(lines)) == lines
  {
    var back := RawOf(Draw(raw));
    forall r | 0 <= r < |raw| ensures back[r] == raw[r] {
    }
    if forall r, c :: 0 <= r < |lines| && 0 <= c < |lines[r]| ==> lines[r][c] in "#." {
      var drawn := Draw(RawOf(lines));
      forall r | 0 <= r < |lines| ensures drawn[r] == lines[r] {
      }
    }
  }

  /** `Image::from` does not panic: there is a first row, and no galaxy lies beyond its width. */
  predicate Fits(raw: seq<seq<bool>>)
  {
    |raw| > 0 && forall r, c :: 0 <= r < |raw| && 0 <= c < |raw[r]| && raw[r][c] ==> c < |raw[0]|
  }

  /** Points before `q` in row-major order. */
  predicate Before(p: Point, q: Point)
  {
    p.r < q.r || (p.r == q.r && p.c < q.c)
  }

  /** The galaxies of row `r` among its first `n` cells, left to right. */
  function RowGalaxies(row: seq<bool>, r: nat, n: nat): (g: seq<Point>)
    requires n <= |row|
    ensures forall p :: p in g <==> p.r == r && p.c < n && row[p.c]
    ensures forall i, j :: 0 <= i < j < |g| ==> Before(g[i], g[j])
  {
    if n == 0 then [] else RowGalaxies(row, r, n - 1) + (if row[n - 1] then [Point(r, n - 1)] else [])
  }

  /** The galaxies of the first `n` rows, in row-major order. */
  function Galaxies(raw: seq<seq<bool>>, n: nat): (g: seq<Point>)
    requires n <= |raw|
    ensures forall p :: p in g <==> p.r < n && p.c < |raw[p.r]| && raw[p.r][p.c]
    ensures forall i, j :: 0 <= i < j < |g| ==> Before(g[i], g[j])
  {
    if n == 0 then []
    else
      var front, row := Galaxies(raw, n - 1), RowGalaxies(raw[n - 1], n - 1, |raw[n - 1]|);
      assert forall i, j :: 0 <= i < |front| && 0 <= j < |row| ==> front[i] in front && row[j] in row;
      front + row
  }

  /** Listed in strict row-major order, no galaxy appears twice. */
  lemma GalaxiesDistinct(raw: seq<seq<bool>>)
    ensures forall i, j :: 0 <= i < j < |Galaxies(raw, |raw|)| ==> Galaxies(raw, |raw|)[i] != Galaxies(raw, |raw|)[j]
  {
  }

  /** No galaxy among the cells of `row`. */
  predicate NoGalaxy(row: seq<bool>)
  {
    forall c :: 0 <= c < |row| ==> !row[c]
  }

  /** `row_empty[r]`: row `r` holds no galaxy. */
  function RowsEmpty(raw: seq<seq<bool>>): seq<bool>
  {
    seq(|raw|, r requires 0 <= r < |raw| => NoGalaxy(raw[r]))
  }

  /** No galaxy in column `k` among the rows before `r`, nor in row `r` when `k < c`. */
  predicate ColumnClear(raw: seq<seq<bool>>, k: nat, r: nat, c: nat)
  {
    forall i :: 0 <= i < |raw| && k < |raw[i]| && (i < r || (i == r && k < c)) ==> !raw[i][k]
  }

  /** `col_empty[c]`: column `c` of the first row's width holds no galaxy in any row. */
  function ColsEmpty(raw: seq<seq<bool>>): seq<bool>
    requires |raw| > 0
  {
    seq(|raw[0]|, k requires 0 <= k < |raw[0]| => ColumnClear(raw, k, |raw|, 0))
  }

  // ---------------------------------------------------------------------
  // Distances and pairs
  // ---------------------------------------------------------------------

  /** What crossing one row or column adds. */
  function Weight(empty: bool): nat
  {
    if empty then Expansion else 1
  }

  /** The weights of the rows (or columns) `lo` up to but excluding `hi`. */
  function Span(empty: seq<bool>, lo: nat, hi: nat): nat
    requires hi <= |empty|
  {
    if hi <= lo then 0 else Span(empty, lo, hi - 1) + Weight(empty[hi - 1])
  }

  /** Crossing from `x` to `y` in either direction. */
  function Between(empty: seq<bool>, x: nat, y: nat): nat
    requires x <= |empty| && y <= |empty|
  {
    if y > x then Span(empty, x, y) else Span(empty, y, x)
  }

  /** The distance `Image::distance` computes: the rows crossed plus the columns crossed. */
  function Dist(rowEmpty: seq<bool>, colEmpty: seq<bool>, a: Point, b: Point): nat
    requires a.r <= |rowEmpty| && b.r <= |rowEmpty| && a.c <= |colEmpty| && b.c <= |colEmpty|
  {
    Between(rowEmpty, a.r, b.r) + Between(colEmpty, a.c, b.c)
  }

  function Gap(x: nat, y: nat): nat
  {
    if x < y then y - x else x - y
  }

  lemma {:induction false} SpanBounds(empty: seq<bool>, lo: nat, hi: nat)
    requires lo <= hi <= |empty|
    ensures hi - lo <= Span(empty, lo, hi) <= Expansion * (hi - lo)
    decreases hi
  {
    if lo < hi {
      SpanBounds(empty, lo, hi - 1);
    }
  }

  lemma {:induction false} SpanSplit(empty: seq<bool>, lo: nat, mid: nat, hi: nat)
    requires lo <= mid <= hi <= |empty|
    ensures Span(empty, lo, hi) == Span(empty, lo, mid) + Span(empty, mid, hi)
    decreases hi
  {
    if mid < hi {
      SpanSplit(empty, lo, mid, hi - 1);
    }
  }

  /** The distance is symmetric, zero from a point to itself, and between the plain and the fully expanded Manhattan distance. */
  lemma DistProperties(rowEmpty: seq<bool>, colEmpty: seq<bool>, a: Point, b: Point)
    requires a.r <= |rowEmpty| && b.r <= |rowEmpty| && a.c <= |colEmpty| && b.c <= |colEmpty|
    ensures Dist(rowEmpty, colEmpty, a, b) == Dist(rowEmpty, colEmpty, b, a)
    ensures Dist(rowEmpty, colEmpty, a, a) == 0
    ensures Gap(a.r, b.r) + Gap(a.c, b.c) <= Dist(rowEmpty, colEmpty, a, b)
    ensures Dist(rowEmpty, colEmpty, a, b) <= Expansion * (Gap(a.r, b.r) + Gap(a.c, b.c))
  {
    if a.r < b.r { SpanBounds(rowEmpty, a.r, b.r); } else { SpanBounds(rowEmpty, b.r, a.r); }
    if a.c < b.c { SpanBounds(colEmpty, a.c, b.c); } else { SpanBounds(colEmpty, b.c, a.c); }
  }

  lemma BetweenTriangle(empty: seq<bool>, x: nat, y: nat, z: nat)
    requires x <= |empty| && y <= |empty| && z <= |empty|
    ensures Between(empty, x, z) <= Between(empty, x, y) + Between(empty, y, z)
  {
    var lo := if x < z then x else z;
    var hi := if x < z then z else x;
    if y <= lo {
      SpanSplit(empty, y, lo, hi);
      if x < z { SpanSplit(empty, y, x, z); }
    } else if y >= hi {
      SpanSplit(empty, lo, hi, y);
    } else {
      SpanSplit(empty, lo, y, hi);
    }
  }

  /** The distance obeys the triangle inequality. */
  lemma DistTriangle(rowEmpty: seq<bool>, colEmpty: seq<bool>, a: Point, b: Point, c: Point)
    requires a.r <= |rowEmpty| && b.r <= |rowEmpty| && c.r <= |rowEmpty|
    requires a.c <= |colEmpty| && b.c <= |colEmpty| && c.c <= |colEmpty|
    ensures Dist(rowEmpty, colEmpty, a, c) <= Dist(rowEmpty, colEmpty, a, b) + Dist(rowEmpty, colEmpty, b, c)
  {
    BetweenTriangle(rowEmpty, a.r, b.r, c.r);
    BetweenTriangle(colEmpty, a.c, b.c, c.c);
  }

  /** The pairs `(i, j)` with `i < j < n` that `pairs` makes for one `i`, by increasing `j`. */
  function RowPairs(n: nat, i: nat): seq<(nat, nat)>
  {
    seq(if i < n then n - i - 1 else 0, k => (i, i + 1 + k))
  }

  /** The index pairs `(i, j)`, `i < j < n` and `i < m`, in the order `pairs` produces them. */
  function IndexPairs(n: nat, m: nat): seq<(nat, nat)>
  {
    if m == 0 then [] else IndexPairs(n, m - 1) + RowPairs(n, m - 1)
  }

  /** Lexicographic order on index pairs. */
  predicate PairBefore(x: (nat, nat), y: (nat, nat))
  {
    x.0 < y.0 || (x.0 == y.0 && x.1 < y.1)
  }

  /** Each pair `i < j < n` with `i < m` appears, nothing else does, and in strictly increasing order, so each once. */
  lemma IndexPairsSpec(n: nat, m: nat)
    ensures forall x: (nat, nat) :: x in IndexPairs(n, m) <==> x.0 < m && x.0 < x.1 < n
    ensures forall i, j :: 0 <= i < j < |IndexPairs(n, m)| ==> PairBefore(IndexPairs(n, m)[i], IndexPairs(n, m)[j])
    ensures m <= n ==> 2 * |IndexPairs(n, m)| == m * (2 * n - m - 1)
  {
    IndexPairsMembers(n, m);
    IndexPairsOrdered(n, m);
    if m <= n {
      IndexPairsCount(n, m);
    }
  }

  lemma {:induction false} IndexPairsMembers(n: nat, m: nat)
    ensures forall x: (nat, nat) :: x in IndexPairs(n, m) <==> x.0 < m && x.0 < x.1 < n
  {
    if m > 0 {
      IndexPairsMembers(n, m - 1);
      var row := RowPairs(n, m - 1);
      forall x: (nat, nat) | x.0 == m - 1 && x.0 < x.1 < n ensures x in row {
        assert row[x.1 - m] == x;
      }
    }
  }

  lemma {:induction false} IndexPairsOrdered(n: nat, m: nat)
    ensures forall i, j :: 0 <= i < j < |IndexPairs(n, m)| ==> PairBefore(IndexPairs(n, m)[i], IndexPairs(n, m)[j])
  {
    if m > 0 {
      IndexPairsOrdered(n, m - 1);
      IndexPairsMembers(n, m - 1);
      var front := IndexPairs(n, m - 1);
      assert forall k :: 0 <= k < |front| ==> front[k] in front;
    }
  }

  lemma {:induction false} IndexPairsCount(n: nat, m: nat)
    requires m <= n
    ensures 2 * |IndexPairs(n, m)| == m * (2 * n - m - 1)
  {
    if m > 0 {
      IndexPairsCount(n, m - 1);
      assert |RowPairs(n, m - 1)| == n - m;
      assert (m - 1) * (2 * n - m) + 2 * (n - m) == m * (2 * n - m - 1);
    }
  }

  /** All the galaxies: `pairs` gives n(n-1)/2 of them. */
  lemma PairCount(n: nat)
    ensures 2 * |IndexPairs(n, n)| == n * (n - 1)
  {
    IndexPairsSpec(n, n);
  }

  /** Every index pair below `n` (any prefix of the rows included) names two of `n` galaxies. */
  ghost predicate IndexPairsValid(n: nat)
  {
    forall m, k :: 0 <= m <= n && 0 <= k < |IndexPairs(n, m)| ==> IndexPairs(n, m)[k].0 < n && IndexPairs(n, m)[k].1 < n
  }

  lemma ValidPairs(n: nat)
    ensures IndexPairsValid(n)
  {
    forall m, k | 0 <= m <= n && 0 <= k < |IndexPairs(n, m)|
      ensures IndexPairs(n, m)[k].0 < n && IndexPairs(n, m)[k].1 < n
    {
      IndexPairsSpec(n, m);
      assert IndexPairs(n, m)[k] in IndexPairs(n, m);
    }
  }

  /** The galaxies at each index pair. */
  function Lift(g: seq<Point>, xs: seq<(nat, nat)>): seq<(Point, Point)>
    requires forall k :: 0 <= k < |xs| ==> xs[k].0 < |g| && xs[k].1 < |g|
  {
    seq(|xs|, k requires 0 <= k < |xs| => (g[xs[k].0], g[xs[k].1]))
  }

  /** One row of the scan in `Image::from`: its galaxies are appended, its columns marked, its emptiness told. */
  method ScanRow(raw: seq<seq<bool>>, r: nat, cols: array<bool>, found: seq<Point>) returns (found': seq<Point>, empty: bool)
    requires Fits(raw) && r < |raw| && cols.Length == |raw[0]|
    requires found == Galaxies(raw, r)
    requires forall k :: 0 <= k < cols.Length ==> (cols[k] <==> ColumnClear(raw, k, r, 0))
    modifies cols
    ensures found' == Galaxies(raw, r + 1)
    ensures empty == NoGalaxy(raw[r])
    ensures forall k :: 0 <= k < cols.Length ==> (cols[k] <==> ColumnClear(raw, k, r + 1, 0))
  {
    empty := true;
    found' := found;
    for c := 0 to |raw[r]|
      invariant found' == Galaxies(raw, r) + RowGalaxies(raw[r], r, c)
      invariant empty <==> forall k :: 0 <= k < c ==> !raw[r][k]
      invariant forall k :: 0 <= k < cols.Length ==> (cols[k] <==> ColumnClear(raw, k, r, c))
    {
      if raw[r][c] {
        empty := false;
        found' := found' + [Point(r, c)];
        cols[c] := false;
      }
    }
    assert forall k :: 0 <= k < cols.Length ==> (ColumnClear(raw, k, r, |raw[r]|) <==> ColumnClear(raw, k, r + 1, 0));
  }

  /** `Image`: the galaxies, and which rows and columns are empty. */
  class Image {
    var galaxies: seq<Point>
    var rowEmpty: seq<bool>
    var colEmpty: seq<bool>

    /** `Image::from`: one pass over the cells, clearing each column that holds a galaxy. */
    constructor From(raw: seq<seq<bool>>)
      requires Fits(raw)
      ensures galaxies == Galaxies(raw, |raw|)
      ensures rowEmpty == RowsEmpty(raw)
      ensures colEmpty == ColsEmpty(raw)
    {
      var cols := new bool[|raw[0]|](_ => true);
      var found: seq<Point> := [];
      var rows: seq<bool> := [];
      for r := 0 to |raw|
        invariant found == Galaxies(raw, r)
        invariant rows == RowsEmpty(raw[..r])
        invariant forall k :: 0 <= k < cols.Length ==> (cols[k] <==> ColumnClear(raw, k, r, 0))
      {
        var empty;
        found, empty := ScanRow(raw, r, cols, found);
        assert raw[..r + 1] == raw[..r] + [raw[r]];
        rows := rows + [empty];
      }
      assert raw[..|raw|] == raw;
      galaxies := found;
      rowEmpty := rows;
      colEmpty := cols[..];
    }

    /** `Image::distance`: counts the rows between, then the columns between, each empty one a million. */
    method Distance(a: Point, b: Point) returns (d: nat)
      requires a.r <= |rowEmpty| && b.r <= |rowEmpty| && a.c <= |colEmpty| && b.c <= |colEmpty|
      ensures d == Dist(rowEmpty, colEmpty, a, b)
    {
      d := 0;
      if b.r > a.r {
        for r := a.r to b.r
          invariant d == Span(rowEmpty, a.r, r)
        {
          d := d + Weight(rowEmpty[r]);
        }
      } else {
        for r := b.r to a.r
          invariant d == Span(rowEmpty, b.r, r)
        {
          d := d + Weight(rowEmpty[r]);
        }
      }
      var rows := d;
      if b.c > a.c {
        for c := a.c to b.c
          invariant d == rows + Span(colEmpty, a.c, c)
        {
          d := d + Weight(colEmpty[c]);
        }
      } else {
        for c := b.c to a.c
          invariant d == rows + Span(colEmpty, b.c, c)
        {
          d := d + Weight(colEmpty[c]);
        }
      }
    }

    /** `Image::pairs`: every galaxy with every later one, in order. */
    method Pairs() returns (ps: seq<(Point, Point)>)
      ensures IndexPairsValid(|galaxies|) && ps == Lift(galaxies, IndexPairs(|galaxies|, |galaxies|))
    {
      var n := |galaxies|;
      ValidPairs(n);
      ps := [];
      for i := 0 to n
        invariant IndexPairsValid(n) && ps == Lift(galaxies, IndexPairs(n, i))
      {
        var row := RowPairs(n, i);
        for j := i + 1 to n
          invariant ps == Lift(galaxies, IndexPairs(n, i) + row[..j - i - 1])
        {
          assert row[..j - i] == row[..j - i - 1] + [(i, j)];
          ps := ps + [(galaxies[i], galaxies[j])];
        }
        assert row[..n - i - 1] == row;
      }
    }
  }
}
