/**
 * Day 13: lines of reflection in patterns of ash and rocks. A pattern is kept
 * both as rows and as columns; a split between two neighbouring lines is a
 * mirror when every line agrees with its reflection as far as both sides
 * reach. Rows are tried first, top to bottom, then columns, left to right.
 */
module Day13 {
  import opened Wrappers

  datatype Tile = Ash | Rocks

  /** `Mirror`: the split lies after this many rows, or after this many columns. */
  datatype Mirror = AfterRow(r: nat) | AfterColumn(c: nat)

  type Line = seq<Tile>

  /** `Pattern`: the rows, and the same tiles column by column. */
  datatype Pattern = Pattern(rows: seq<Line>, cols: seq<Line>)

  // ---------------------------------------------------------------------
  // Reading a pattern
  // ---------------------------------------------------------------------

  /** `Tile::from`; any other character panics. */
  function TileOf(ch: char): Tile
    requires ch in "#."
  {
    if ch == '#' then Rocks else Ash
  }

  function TileChar(t: Tile): char
  {
    match t
    case Rocks => '#'
    case Ash => '.'
  }

  predicate Readable(line: string)
  {
    forall k :: 0 <= k < |line| ==> line[k] in "#."
  }

  /** `Line::from_str`: one tile per character. */
  function LineOf(line: string): (l: Line)
    requires Readable(line)
    ensures |l| == |line|
    ensures forall k :: 0 <= k < |line| ==> (l[k] == Rocks <==> line[k] == '#')
  {
    seq(|line|, k requires 0 <= k < |line| => TileOf(line[k]))
  }

  function Show(l: Line): (line: string)
    ensures Readable(line)
  {
    seq(|l|, k requires 0 <= k < |l| => TileChar(l[k]))
  }

  /** Showing a line and reading it back are inverse. */
  lemma LineRoundTrip(l: Line, line: string)
    ensures LineOf(Show(l)) == l
    ensures Readable(line) ==> Show(LineOf(line)) == line
  {
  }

  /** How `Pattern::from_str` indexes `rows`: column `c` below the first row's width exists in every row. */
  predicate Indexable(rows: seq<Line>)
  {
    |rows| > 0 && forall r :: 0 <= r < |rows| ==> |rows[r]| >= |rows[0]|
  }

  /** Column `c` of `rows`, top to bottom. */
  function Column(rows: seq<Line>, c: nat): (col: Line)
    requires forall r :: 0 <= r < |rows| ==> c < |rows[r]|
    ensures |col| == |rows| && forall r :: 0 <= r < |rows| ==> col[r] == rows[r][c]
  {
    seq(|rows|, r requires 0 <= r < |rows| => rows[r][c])
  }

  /** The columns `Pattern::from_str` builds: one per cell of the first row, `cols[c][r] == rows[r][c]`. */
  function Transpose(rows: seq<Line>): (cols: seq<Line>)
    requires Indexable(rows)
    ensures |cols| == |rows[0]|
    ensures forall c :: 0 <= c < |cols| ==> |cols[c]| == |rows| && forall r :: 0 <= r < |rows| ==> cols[c][r] == rows[r][c]
  {
    seq(|rows[0]|, c requires 0 <= c < |rows[0]| => Column(rows, c))
  }

  /** For a rectangular pattern, transposing twice gives back the rows. */
  lemma TransposeTwice(rows: seq<Line>)
    requires Indexable(rows) && |rows[0]| > 0 && forall r :: 0 <= r < |rows| ==> |rows[r]| == |rows[0]|
    ensures Indexable(Transpose(rows)) && Transpose(Transpose(rows)) == rows
  {
    var back := Transpose(Transpose(rows));
    forall r | 0 <= r < |rows| ensures back[r] == rows[r] {
    }
  }

  /** `Pattern::from_str`: the rows, then the columns built cell by cell. */
  method ParsePattern(lines: seq<string>) returns (p: Pattern)
    requires |lines| > 0 && forall r :: 0 <= r < |lines| ==> Readable(lines[r]) && |lines[r]| >= |lines[0]|
    ensures p.rows == seq(|lines|, r requires 0 <= r < |lines| => LineOf(lines[r]))
    ensures Indexable(p.rows) && p.cols == Transpose(p.rows)
  {
    var rows := seq(|lines|, r requires 0 <= r < |lines| => LineOf(lines[r]));
    var cols: seq<Line> := [];
    for c := 0 to |rows[0]|
      invariant |cols| == c && forall k :: 0 <= k < c ==> cols[k] == Column(rows, k)
    {
      var column: Line := [];
      for r := 0 to |rows|
        invariant column == Column(rows[..r], c)
      {
        assert rows[..r + 1] == rows[..r] + [rows[r]];
        column := column + [rows[r][c]];
      }
      assert rows[..|rows|] == rows;
      cols := cols + [column];
    }
    p := Pattern(rows, cols);
  }

  // ---------------------------------------------------------------------
  // Mirrors
  // ---------------------------------------------------------------------

  /** Walking outwards from `lower` and `upper`, the lines agree until either side runs out. */
  predicate MirrorsAt(lines: seq<Line>, lower: nat, upper: nat)
    requires lower < upper
  {
    forall i :: 0 <= i <= lower && upper + (lower - i) < |lines| ==> lines[i] == lines[upper + (lower - i)]
  }

  /** The split after line `l` (between `l` and `l + 1`) is a mirror. */
  predicate Reflects(lines: seq<Line>, l: nat)
  {
    MirrorsAt(lines, l, l + 1)
  }

  /** `Pattern::check_mirror`: compares pairs moving outwards, stopping at the first mismatch or at either end. */
  method CheckMirror(lines: seq<Line>, lower: nat, upper: nat) returns (b: bool)
    requires lower < upper
    ensures b == MirrorsAt(lines, lower, upper)
  {
    var lo: nat, up: nat := lower, upper;
    while up < |lines|
      invariant lo <= lower && up == upper + (lower - lo)
      invariant lo == lower || up <= |lines|
      invariant forall i :: lo < i <= lower ==> lines[i] == lines[upper + (lower - i)]
      decreases lo
    {
      if lines[lo] != lines[up] {
        return false;
      }
      if lo == 0 {
        break;
      }
      lo, up := lo - 1, up + 1;
    }
    return true;
  }

  function Reverse(lines: seq<Line>): (r: seq<Line>)
    ensures |r| == |lines| && forall k :: 0 <= k < |lines| ==> r[k] == lines[|lines| - 1 - k]
  {
    seq(|lines|, k requires 0 <= k < |lines| => lines[|lines| - 1 - k])
  }

  /** A split is a mirror exactly when the matching split of the lines in reverse order is. */
  lemma ReflectsReversed(lines: seq<Line>, l: nat)
    requires l + 1 < |lines|
    ensures Reflects(lines, l) <==> Reflects(Reverse(lines), |lines| - 2 - l)
  {
    var n := |lines|;
    var rev := Reverse(lines);
    var m := n - 2 - l;
    if Reflects(lines, l) {
      forall j | 0 <= j <= m && m + 1 + (m - j) < n ensures rev[j] == rev[m + 1 + (m - j)] {
        // rev[j] is lines[n - 1 - j], whose partner across split l is rev[2m + 1 - j].
        var i := l + 1 + (l - (n - 1 - j));
        assert lines[i] == lines[l + 1 + (l - i)];
      }
    }
    if Reflects(rev, m) {
      forall i | 0 <= i <= l && l + 1 + (l - i) < n ensures lines[i] == lines[l + 1 + (l - i)] {
        var j := n - 1 - (l + 1 + (l - i));
        assert rev[j] == rev[m + 1 + (m - j)];
      }
    }
  }

  /** Some split among the first `n` splits of `lines` is a mirror. */
  predicate AnyBelow(lines: seq<Line>, n: nat)
  {
    exists l :: 0 <= l < n && Reflects(lines, l)
  }

  /** `Pattern::mirror`'s demand on the pattern: at least one row and one column. */
  predicate Searchable(p: Pattern)
  {
    |p.rows| > 0 && |p.cols| > 0
  }

  /**
   * `Pattern::mirror`: the first row split that is a mirror, else the first
   * column split, else `None`.
   */
  method FindMirror(p: Pattern) returns (m: Option<Mirror>)
    requires Searchable(p)
    ensures m.None? <==> !AnyBelow(p.rows, |p.rows| - 1) && !AnyBelow(p.cols, |p.cols| - 1)
    ensures m.Some? && m.value.AfterRow? ==>
      1 <= m.value.r < |p.rows| && Reflects(p.rows, m.value.r - 1) && !AnyBelow(p.rows, m.value.r - 1)
    ensures m.Some? && m.value.AfterColumn? ==>
      !AnyBelow(p.rows, |p.rows| - 1) &&
      1 <= m.value.c < |p.cols| && Reflects(p.cols, m.value.c - 1) && !AnyBelow(p.cols, m.value.c - 1)
  {
    for r := 0 to |p.rows| - 1
      invariant !AnyBelow(p.rows, r)
    {
      var b := CheckMirror(p.rows, r, r + 1);
      if b {
        assert Reflects(p.rows, r);
        return Some(AfterRow(r + 1));
      }
    }
    for c := 0 to |p.cols| - 1
      invariant !AnyBelow(p.cols, c)
    {
      var b := CheckMirror(p.cols, c, c + 1);
      if b {
        assert Reflects(p.cols, c);
        return Some(AfterColumn(c + 1));
      }
    }
    return None;
  }

  /** `Mirror::number`: a hundred per row above the split, one per column left of it. */
  function Number(m: Mirror): nat
  {
    match m
    case AfterRow(r) => r * 100
    case AfterColumn(c) => c
  }

  /** With fewer than a hundred columns, the number tells which mirror it came from. */
  lemma NumberDecodes(a: Mirror, b: Mirror)
    requires a.AfterColumn? ==> a.c < 100
    requires b.AfterColumn? ==> b.c < 100
    requires a.AfterRow? ==> a.r > 0
    requires b.AfterRow? ==> b.r > 0
    ensures Number(a) == Number(b) <==> a == b
  {
  }
}
