/**
 * Day 14: a platform of rounded rocks (`O`), cube rocks (`#`) and empty
 * ground (`.`). Tilting the platform rolls every rounded rock as far as it
 * goes, stopped only by cube rocks and the edges; the load on the north
 * beams weighs each rounded rock by its distance from the south edge.
 *
 * A line is shifted one stretch at a time, a stretch being a maximal run of
 * cells without a cube rock. `ShiftedLeft` and `ShiftedRight` say, cell by
 * cell, what a shifted line is; the loop methods `ShiftLeft` and
 * `ShiftRight` are proved to compute exactly that.
 */
module Day14 {

  datatype Tile = Empty | Round | Cube

  type Line = seq<Tile>

  /** The platform keeps both its rows and its columns. */
  datatype Platform = Platform(rows: seq<Line>, cols: seq<Line>)

  /** `Tile::from`; any other character panics. */
  function TileOf(c: char): (t: Tile)
    requires c in "#.O"
    ensures c == '#' <==> t == Cube
    ensures c == 'O' <==> t == Round
  {
    if c == '#' then Cube else if c == '.' then Empty else Round
  }

  /** How the program prints a tile. */
  function TileChar(t: Tile): char
  {
    match t
    case Cube => '#'
    case Round => 'O'
    case Empty => '.'
  }

  /** `Line::from_str`: one tile per character. */
  function ParseLine(s: string): (l: Line)
    requires forall k :: 0 <= k < |s| ==> s[k] in "#.O"
    ensures |l| == |s|
  {
    seq(|s|, k requires 0 <= k < |s| => TileOf(s[k]))
  }

  /** Printing a parsed line gives the text back. */
  lemma PrintParsed(s: string)
    requires forall k :: 0 <= k < |s| ==> s[k] in "#.O"
    ensures seq(|s|, k requires 0 <= k < |s| => TileChar(ParseLine(s)[k])) == s
  {
  }

  // ---------------------------------------------------------------------
  // Counting rounded rocks
  // ---------------------------------------------------------------------

  function Count(l: Line): nat
  {
    multiset(l)[Round]
  }

  /** The rounded rocks in cells `a` to `b - 1`. */
  function RoundsIn(l: Line, a: nat, b: nat): nat
    requires a <= b <= |l|
  {
    Count(l[a..b])
  }

  lemma RoundsSplit(l: Line, a: nat, m: nat, b: nat)
    requires a <= m <= b <= |l|
    ensures RoundsIn(l, a, b) == RoundsIn(l, a, m) + RoundsIn(l, m, b)
  {
    assert l[a..b] == l[a..m] + l[m..b];
  }

  lemma RoundsOne(l: Line, a: nat)
    requires a < |l|
    ensures RoundsIn(l, a, a + 1) == if l[a] == Round then 1 else 0
  {
    assert l[a..a + 1] == [l[a]];
  }

  /** When exactly the cells `lo` to `hi - 1` of `a` to `b - 1` are round, there are `hi - lo` of them. */
  lemma {:induction false} RoundsRange(l: Line, a: nat, b: nat, lo: nat, hi: nat)
    requires a <= lo <= hi <= b <= |l|
    requires forall j :: a <= j < b ==> (l[j] == Round <==> lo <= j < hi)
    ensures RoundsIn(l, a, b) == hi - lo
    decreases b - a
  {
    if a < b {
      RoundsSplit(l, a, b - 1, b);
      RoundsOne(l, b - 1);
      var lo', hi' := if lo < b then lo else b - 1, if hi < b then hi else b - 1;
      RoundsRange(l, a, b - 1, lo', hi');
    }
  }

  lemma {:induction false} RoundsBound(l: Line, a: nat, b: nat)
    requires a <= b <= |l|
    ensures RoundsIn(l, a, b) <= b - a
    decreases b - a
  {
    if a < b {
      RoundsSplit(l, a, b - 1, b);
      RoundsOne(l, b - 1);
      RoundsBound(l, a, b - 1);
    }
  }

  // ---------------------------------------------------------------------
  // Stretches between cube rocks
  // ---------------------------------------------------------------------

  /** Cells `a` to `b - 1` form a maximal stretch without cube rocks. */
  predicate Stretch(l: Line, a: nat, b: nat)
  {
    && a <= b <= |l|
    && (a == 0 || l[a - 1] == Cube)
    && (b == |l| || l[b] == Cube)
    && forall j :: a <= j < b ==> l[j] != Cube
  }

  /** Where the stretch holding cell `i` begins. */
  function StretchStart(l: Line, i: nat): (a: nat)
    requires i <= |l|
    ensures a <= i && (a == 0 || l[a - 1] == Cube)
    ensures forall j :: a <= j < i ==> l[j] != Cube
  {
    if i == 0 || l[i - 1] == Cube then i else StretchStart(l, i - 1)
  }

  /** Where the stretch holding cell `i` ends (exclusive). */
  function StretchEnd(l: Line, i: nat): (b: nat)
    requires i <= |l|
    ensures i <= b <= |l| && (b == |l| || l[b] == Cube)
    ensures forall j :: i <= j < b ==> l[j] != Cube
    decreases |l| - i
  {
    if i == |l| || l[i] == Cube then i else StretchEnd(l, i + 1)
  }

  /** Every cell of a stretch finds that stretch. */
  lemma StretchAt(l: Line, a: nat, b: nat, j: nat)
    requires Stretch(l, a, b) && a <= j < b
    ensures StretchStart(l, j) == a && StretchEnd(l, j) == b
  {
  }

  /** Lines with their cube rocks in the same cells have the same stretches. */
  predicate SameCubes(l: Line, m: Line)
  {
    |l| == |m| && forall j :: 0 <= j < |l| ==> (l[j] == Cube <==> m[j] == Cube)
  }

  /** The cell-by-cell result of `Line::shift_left`: each stretch's rounded rocks packed to its left end. */
  function ShiftedLeft(l: Line): (r: Line)
    ensures SameCubes(l, r)
  {
    seq(|l|, i requires 0 <= i < |l| =>
      if l[i] == Cube then Cube
      else if i - StretchStart(l, i) < RoundsIn(l, StretchStart(l, i), StretchEnd(l, i)) then Round
      else Empty)
  }

  /** The cell-by-cell result of `Line::shift_right`: each stretch's rounded rocks packed to its right end. */
  function ShiftedRight(l: Line): (r: Line)
    ensures SameCubes(l, r)
  {
    seq(|l|, i requires 0 <= i < |l| =>
      if l[i] == Cube then Cube
      else if StretchEnd(l, i) - i <= RoundsIn(l, StretchStart(l, i), StretchEnd(l, i)) then Round
      else Empty)
  }

  lemma ShiftedLeftOn(l: Line, a: nat, b: nat)
    requires Stretch(l, a, b)
    ensures forall j :: a <= j < b ==>
      ShiftedLeft(l)[j] == if j - a < RoundsIn(l, a, b) then Round else Empty
  {
    forall j | a <= j < b {
      StretchAt(l, a, b, j);
    }
  }

  lemma ShiftedRightOn(l: Line, a: nat, b: nat)
    requires Stretch(l, a, b)
    ensures forall j :: a <= j < b ==>
      ShiftedRight(l)[j] == if b - j <= RoundsIn(l, a, b) then Round else Empty
  {
    forall j | a <= j < b {
      StretchAt(l, a, b, j);
    }
  }

  // ---------------------------------------------------------------------
  // The shifting loops
  // ---------------------------------------------------------------------

  /** Sets cells `from` to `to - 1` to rounded rocks (the inner `for` loops of the shifts). */
  method FillRound(v: Line, from: nat, to: nat) returns (r: Line)
    requires from <= to <= |v|
    ensures |r| == |v|
    ensures forall j :: 0 <= j < |v| ==> r[j] == if from <= j < to then Round else v[j]
  {
    r := v;
    for k := from to to
      invariant |r| == |v|
      invariant forall j :: 0 <= j < |v| ==> r[j] == if from <= j < k then Round else v[j]
    {
      r := r[k := Round];
    }
  }

  /**
   * What `shift_left` knows with cells `i` onwards scanned: the cells before
   * `i` untouched, the open stretch from `i` emptied with its rounded rocks
   * held in `rocks`, and everything after it already in final form.
   */
  ghost predicate LeftScan(line: Line, vec: Line, rocks: nat, i: nat)
  {
    && i <= |line| && |vec| == |line|
    && (forall j :: 0 <= j < i ==> vec[j] == line[j])
    && (forall j :: i <= j < StretchEnd(line, i) ==> vec[j] == Empty)
    && (forall j :: StretchEnd(line, i) <= j < |line| ==> vec[j] == ShiftedLeft(line)[j])
    && rocks == RoundsIn(line, i, StretchEnd(line, i))
  }

  /** A cube rock at `i` closes the open stretch: its rocks are dropped just after the cube. */
  lemma LeftScanCube(line: Line, vec: Line, rocks: nat, i: nat, vec': Line)
    requires i < |line| && line[i] == Cube && LeftScan(line, vec, rocks, i + 1)
    requires |vec'| == |vec|
    requires forall j :: 0 <= j < |vec| ==> vec'[j] == if i + 1 <= j < i + 1 + rocks then Round else vec[j]
    ensures LeftScan(line, vec', 0, i)
  {
    var e := StretchEnd(line, i + 1);
    ShiftedLeftOn(line, i + 1, e);
    RoundsBound(line, i + 1, e);
  }

  lemma LeftScanOther(line: Line, vec: Line, rocks: nat, i: nat)
    requires i < |line| && line[i] != Cube && LeftScan(line, vec, rocks, i + 1)
    ensures LeftScan(line, vec[i := Empty], rocks + (if line[i] == Round then 1 else 0), i)
  {
    var e := StretchEnd(line, i + 1);
    RoundsSplit(line, i, i + 1, e);
    RoundsOne(line, i);
  }

  lemma LeftScanDone(line: Line, vec: Line, rocks: nat, vec': Line)
    requires LeftScan(line, vec, rocks, 0)
    requires |vec'| == |vec|
    requires forall j :: 0 <= j < |vec| ==> vec'[j] == if j < rocks then Round else vec[j]
    ensures vec' == ShiftedLeft(line)
  {
    ShiftedLeftOn(line, 0, StretchEnd(line, 0));
  }

  lemma LeftScanRoom(line: Line, vec: Line, rocks: nat, i: nat)
    requires LeftScan(line, vec, rocks, i)
    ensures i + rocks <= StretchEnd(line, i)
  {
    RoundsBound(line, i, StretchEnd(line, i));
  }

  /** The `Cube` arm of `shift_left`: the rocks held fill the cells just after the cube rock. */
  method DropAfterCube(line: Line, vec: Line, rocks: nat, i: nat) returns (vec': Line)
    requires i < |line| && line[i] == Cube && LeftScan(line, vec, rocks, i + 1)
    ensures LeftScan(line, vec', 0, i)
  {
    LeftScanRoom(line, vec, rocks, i + 1);
    vec' := vec;
    if rocks > 0 {
      vec' := FillRound(vec, i + 1, i + 1 + rocks);
    }
    LeftScanCube(line, vec, rocks, i, vec');
  }

  lemma LeftScanStart(line: Line)
    ensures LeftScan(line, line, 0, |line|)
  {
  }

  /** The body of `shift_left`'s loop at cell `i`. */
  method ShiftLeftStep(line: Line, vec: Line, rocks: nat, i: nat) returns (vec': Line, rocks': nat)
    requires i < |line| && LeftScan(line, vec, rocks, i + 1)
    ensures LeftScan(line, vec', rocks', i)
  {
    match vec[i] {
      case Cube =>
        vec' := DropAfterCube(line, vec, rocks, i);
        rocks' := 0;
      case Empty =>
        LeftScanOther(line, vec, rocks, i);
        assert vec[i := Empty] == vec;
        vec', rocks' := vec, rocks;
      case Round =>
        LeftScanOther(line, vec, rocks, i);
        vec', rocks' := vec[i := Empty], rocks + 1;
    }
  }

  /** `Line::shift_left`: scans right to left, lifting rounded rocks and dropping them behind each cube rock. */
  method ShiftLeft(line: Line) returns (r: Line)
    ensures r == ShiftedLeft(line)
  {
    var vec := line;
    var rocks: nat := 0;
    var i: nat := |vec|;
    LeftScanStart(line);
    while i > 0
      invariant LeftScan(line, vec, rocks, i)
    {
      i := i - 1;
      vec, rocks := ShiftLeftStep(line, vec, rocks, i);
    }
    LeftScanRoom(line, vec, rocks, 0);
    r := FillRound(vec, 0, rocks);
    LeftScanDone(line, vec, rocks, r);
  }

  /**
   * What `shift_right` knows with cells before `i` scanned: the cells from
   * `i` untouched, the open stretch ending at `i` emptied with its rounded
   * rocks held in `rocks`, and everything before it already in final form.
   */
  ghost predicate RightScan(line: Line, vec: Line, rocks: nat, i: nat)
  {
    && i <= |line| && |vec| == |line|
    && (forall j :: i <= j < |line| ==> vec[j] == line[j])
    && (forall j :: StretchStart(line, i) <= j < i ==> vec[j] == Empty)
    && (forall j :: 0 <= j < StretchStart(line, i) ==> vec[j] == ShiftedRight(line)[j])
    && rocks == RoundsIn(line, StretchStart(line, i), i)
  }

  /** A cube rock at `i` closes the open stretch: its rocks are dropped just before the cube. */
  lemma RightScanCube(line: Line, vec: Line, rocks: nat, i: nat, vec': Line)
    requires i < |line| && line[i] == Cube && RightScan(line, vec, rocks, i)
    requires rocks <= i && |vec'| == |vec|
    requires forall j :: 0 <= j < |vec| ==> vec'[j] == if i - rocks <= j < i then Round else vec[j]
    ensures RightScan(line, vec', 0, i + 1)
  {
    var s := StretchStart(line, i);
    assert StretchStart(line, i + 1) == i + 1;
    ShiftedRightOn(line, s, i);
    RoundsBound(line, s, i);
    var r := ShiftedRight(line);
    assert SameCubes(line, r);
    forall j | 0 <= j < i + 1 ensures vec'[j] == r[j] {
      if j < s {
        assert vec'[j] == vec[j];
      } else if j == i {
        assert vec'[j] == vec[j] == line[j];
      }
    }
  }

  lemma RightScanOther(line: Line, vec: Line, rocks: nat, i: nat)
    requires i < |line| && line[i] != Cube && RightScan(line, vec, rocks, i)
    ensures RightScan(line, vec[i := Empty], rocks + (if line[i] == Round then 1 else 0), i + 1)
  {
    var s := StretchStart(line, i);
    RoundsSplit(line, s, i, i + 1);
    RoundsOne(line, i);
  }

  lemma RightScanDone(line: Line, vec: Line, rocks: nat, vec': Line)
    requires RightScan(line, vec, rocks, |line|) && rocks <= |line|
    requires |vec'| == |vec|
    requires forall j :: 0 <= j < |vec| ==> vec'[j] == if |vec| - rocks <= j then Round else vec[j]
    ensures vec' == ShiftedRight(line)
  {
    ShiftedRightOn(line, StretchStart(line, |line|), |line|);
  }

  lemma RightScanRoom(line: Line, vec: Line, rocks: nat, i: nat)
    requires RightScan(line, vec, rocks, i)
    ensures StretchStart(line, i) + rocks <= i
  {
    RoundsBound(line, StretchStart(line, i), i);
  }

  /** The `Cube` arm of `shift_right`: the rocks held fill the cells just before the cube rock. */
  method DropBeforeCube(line: Line, vec: Line, rocks: nat, i: nat) returns (vec': Line)
    requires i < |line| && line[i] == Cube && RightScan(line, vec, rocks, i)
    ensures RightScan(line, vec', 0, i + 1)
  {
    RightScanRoom(line, vec, rocks, i);
    vec' := vec;
    if rocks > 0 {
      vec' := FillRound(vec, i - rocks, i);
    }
    RightScanCube(line, vec, rocks, i, vec');
  }

  lemma RightScanStart(line: Line)
    ensures RightScan(line, line, 0, 0)
  {
  }

  /** The body of `shift_right`'s loop at cell `i`. */
  method ShiftRightStep(line: Line, vec: Line, rocks: nat, i: nat) returns (vec': Line, rocks': nat)
    requires i < |line| && RightScan(line, vec, rocks, i)
    ensures RightScan(line, vec', rocks', i + 1)
  {
    match vec[i] {
      case Cube =>
        vec' := DropBeforeCube(line, vec, rocks, i);
        rocks' := 0;
      case Empty =>
        RightScanOther(line, vec, rocks, i);
        assert vec[i := Empty] == vec;
        vec', rocks' := vec, rocks;
      case Round =>
        RightScanOther(line, vec, rocks, i);
        vec', rocks' := vec[i := Empty], rocks + 1;
    }
  }

  /** `Line::shift_right`: scans left to right, lifting rounded rocks and dropping them before each cube rock. */
  method ShiftRight(line: Line) returns (r: Line)
    ensures r == ShiftedRight(line)
  {
    var vec := line;
    var rocks: nat := 0;
    RightScanStart(line);
    for i := 0 to |line|
      invariant RightScan(line, vec, rocks, i)
    {
      vec, rocks := ShiftRightStep(line, vec, rocks, i);
    }
    RightScanRoom(line, vec, rocks, |line|);
    r := FillRound(vec, |vec| - rocks, |vec|);
    RightScanDone(line, vec, rocks, r);
  }

  // ---------------------------------------------------------------------
  // Properties of a shifted line
  // ---------------------------------------------------------------------

  /** No empty cell lies just left of a rounded rock. */
  predicate PackedLeft(l: Line)
  {
    forall j :: 0 < j < |l| && l[j] == Round ==> l[j - 1] != Empty
  }

  /** No empty cell lies just right of a rounded rock. */
  predicate PackedRight(l: Line)
  {
    forall j :: 0 <= j < |l| - 1 && l[j] == Round ==> l[j + 1] != Empty
  }

  lemma ShiftedLeftPacked(l: Line)
    ensures PackedLeft(ShiftedLeft(l))
  {
    var r := ShiftedLeft(l);
    forall j | 0 < j < |r| && r[j] == Round ensures r[j - 1] != Empty {
      var a, b := StretchStart(l, j), StretchEnd(l, j);
      ShiftedLeftOn(l, a, b);
    }
  }

  lemma ShiftedRightPacked(l: Line)
    ensures PackedRight(ShiftedRight(l))
  {
    var r := ShiftedRight(l);
    forall j | 0 <= j < |r| - 1 && r[j] == Round ensures r[j + 1] != Empty {
      var a, b := StretchStart(l, j), StretchEnd(l, j);
      assert l[j] != Cube && Stretch(l, a, b);
      ShiftedRightOn(l, a, b);
      if j + 1 == b {
        assert r[b] == Cube;
      } else {
        assert r[j + 1] == Round;
      }
    }
  }

  /** Each stretch of a shifted line holds as many rounded rocks as before. */
  lemma ShiftedStretchRounds(l: Line, a: nat, b: nat)
    requires Stretch(l, a, b)
    ensures RoundsIn(ShiftedLeft(l), a, b) == RoundsIn(l, a, b)
    ensures RoundsIn(ShiftedRight(l), a, b) == RoundsIn(l, a, b)
  {
    var k := RoundsIn(l, a, b);
    RoundsBound(l, a, b);
    ShiftedLeftOn(l, a, b);
    RoundsRange(ShiftedLeft(l), a, b, a, a + k);
    ShiftedRightOn(l, a, b);
    RoundsRange(ShiftedRight(l), a, b, b - k, b);
  }

  /** Rounded rocks from a stretch boundary `a` to the end, for lines whose stretches hold the same counts. */
  lemma {:induction false} RoundsFrom(l: Line, m: Line, a: nat)
    requires SameCubes(l, m) && a <= |l| && (a == 0 || l[a - 1] == Cube)
    requires forall a', b' :: Stretch(l, a', b') ==> RoundsIn(m, a', b') == RoundsIn(l, a', b')
    ensures RoundsIn(m, a, |l|) == RoundsIn(l, a, |l|)
    decreases |l| - a
  {
    var b := StretchEnd(l, a);
    assert Stretch(l, a, b);
    assert RoundsIn(m, a, b) == RoundsIn(l, a, b);
    if b < |l| {
      RoundsSplit(l, a, b, |l|);
      RoundsSplit(m, a, b, |l|);
      SkipCube(l, b);
      SkipCube(m, b);
      RoundsFrom(l, m, b + 1);
    } else {
      assert b == |l|;
    }
  }

  lemma SkipCube(l: Line, b: nat)
    requires b < |l| && l[b] == Cube
    ensures RoundsIn(l, b, |l|) == RoundsIn(l, b + 1, |l|)
  {
    RoundsSplit(l, b, b + 1, |l|);
    RoundsOne(l, b);
  }

  lemma WholeLine(l: Line)
    ensures RoundsIn(l, 0, |l|) == Count(l)
  {
    assert l[0..|l|] == l;
  }

  /** `shift_left` keeps the number of rounded rocks. */
  lemma ShiftedLeftKeepsRounds(l: Line)
    ensures Count(ShiftedLeft(l)) == Count(l)
  {
    forall a, b | Stretch(l, a, b) ensures RoundsIn(ShiftedLeft(l), a, b) == RoundsIn(l, a, b) {
      ShiftedStretchRounds(l, a, b);
    }
    RoundsFrom(l, ShiftedLeft(l), 0);
    WholeLine(l);
    WholeLine(ShiftedLeft(l));
  }

  /** `shift_right` keeps the number of rounded rocks. */
  lemma ShiftedRightKeepsRounds(l: Line)
    ensures Count(ShiftedRight(l)) == Count(l)
  {
    forall a, b | Stretch(l, a, b) ensures RoundsIn(ShiftedRight(l), a, b) == RoundsIn(l, a, b) {
      ShiftedStretchRounds(l, a, b);
    }
    RoundsFrom(l, ShiftedRight(l), 0);
    WholeLine(l);
    WholeLine(ShiftedRight(l));
  }

  /** A stretch of `l` is a stretch of any line with the same cube rocks. */
  lemma SameStretch(l: Line, m: Line, a: nat, b: nat)
    requires SameCubes(l, m) && Stretch(l, a, b)
    ensures Stretch(m, a, b)
  {
  }

  /** Shifting left twice is shifting left once. */
  lemma ShiftLeftIdempotent(l: Line)
    ensures ShiftedLeft(ShiftedLeft(l)) == ShiftedLeft(l)
  {
    var r := ShiftedLeft(l);
    forall j | 0 <= j < |r| && r[j] != Cube ensures ShiftedLeft(r)[j] == r[j] {
      ShiftLeftFixedAt(l, j);
    }
  }

  lemma ShiftLeftFixedAt(l: Line, j: nat)
    requires j < |l| && l[j] != Cube
    ensures ShiftedLeft(ShiftedLeft(l))[j] == ShiftedLeft(l)[j]
  {
    var r := ShiftedLeft(l);
    var a, b := StretchStart(l, j), StretchEnd(l, j);
    assert Stretch(l, a, b);
    SameStretch(l, r, a, b);
    ShiftedStretchRounds(l, a, b);
    ShiftedLeftOn(l, a, b);
    ShiftedLeftOn(r, a, b);
  }

  /** Shifting right twice is shifting right once. */
  lemma ShiftRightIdempotent(l: Line)
    ensures ShiftedRight(ShiftedRight(l)) == ShiftedRight(l)
  {
    var r := ShiftedRight(l);
    forall j | 0 <= j < |r| && r[j] != Cube ensures ShiftedRight(r)[j] == r[j] {
      ShiftRightFixedAt(l, j);
    }
  }

  lemma ShiftRightFixedAt(l: Line, j: nat)
    requires j < |l| && l[j] != Cube
    ensures ShiftedRight(ShiftedRight(l))[j] == ShiftedRight(l)[j]
  {
    var r := ShiftedRight(l);
    var a, b := StretchStart(l, j), StretchEnd(l, j);
    assert Stretch(l, a, b);
    SameStretch(l, r, a, b);
    ShiftedStretchRounds(l, a, b);
    ShiftedRightOn(l, a, b);
    ShiftedRightOn(r, a, b);
  }

  // ---------------------------------------------------------------------
  // Rows and columns
  // ---------------------------------------------------------------------

  /** Every line is at least as long as the first, so `from_rows`/`from_cols` can index them. */
  predicate Indexable(lines: seq<Line>)
  {
    |lines| > 0 && forall k :: 0 <= k < |lines| ==> |lines[k]| >= |lines[0]|
  }

  /** The first `w` columns of `lines`. */
  function Columns(lines: seq<Line>, w: nat): (cols: seq<Line>)
    requires forall k :: 0 <= k < |lines| ==> |lines[k]| >= w
    ensures |cols| == w
    ensures forall c :: 0 <= c < w ==>
      |cols[c]| == |lines| && forall k :: 0 <= k < |lines| ==> cols[c][k] == lines[k][c]
  {
    seq(w, c requires 0 <= c < w => seq(|lines|, k requires 0 <= k < |lines| => lines[k][c]))
  }

  /** The columns `from_rows` builds, or the rows `from_cols` builds: as many as the first line is long. */
  function Transpose(lines: seq<Line>): (t: seq<Line>)
    requires Indexable(lines)
  {
    Columns(lines, |lines[0]|)
  }

  /** Non-empty, all lines of one non-zero length. */
  predicate Rectangular(lines: seq<Line>)
  {
    |lines| > 0 && |lines[0]| > 0 && forall k :: 0 <= k < |lines| ==> |lines[k]| == |lines[0]|
  }

  /** Transposing a rectangle twice gives it back. */
  lemma TransposeTwice(lines: seq<Line>)
    requires Rectangular(lines)
    ensures Rectangular(Transpose(lines)) && Transpose(Transpose(lines)) == lines
  {
    var t := Transpose(lines);
    var tt := Transpose(t);
    assert |tt| == |lines|;
    forall k | 0 <= k < |lines| ensures tt[k] == lines[k] {
      assert |tt[k]| == |lines[k]|;
    }
  }

  /** `Platform::from_rows`: keeps the rows and builds the columns. */
  method FromRows(rows: seq<Line>) returns (p: Platform)
    requires Indexable(rows)
    ensures p.rows == rows && p.cols == Transpose(rows)
  {
    var cols: seq<Line> := [];
    for c := 0 to |rows[0]|
      invariant |cols| == c
      invariant forall c' :: 0 <= c' < c ==> cols[c'] == Transpose(rows)[c']
    {
      var column: seq<Tile> := [];
      for k := 0 to |rows|
        invariant column == seq(k, k' requires 0 <= k' < k => rows[k'][c])
      {
        column := column + [rows[k][c]];
      }
      cols := cols + [column];
    }
    p := Platform(rows, cols);
  }

  /** `Platform::from_cols`: keeps the columns and builds the rows. */
  method FromCols(cols: seq<Line>) returns (p: Platform)
    requires Indexable(cols)
    ensures p.cols == cols && p.rows == Transpose(cols)
  {
    var rows: seq<Line> := [];
    for r := 0 to |cols[0]|
      invariant |rows| == r
      invariant forall r' :: 0 <= r' < r ==> rows[r'] == Transpose(cols)[r']
    {
      var row: seq<Tile> := [];
      for k := 0 to |cols|
        invariant row == seq(k, k' requires 0 <= k' < k => cols[k'][r])
      {
        row := row + [cols[k][r]];
      }
      rows := rows + [row];
    }
    p := Platform(rows, cols);
  }

  /** Rows and columns agree, on a non-empty rectangle. */
  predicate Valid(p: Platform)
  {
    Rectangular(p.rows) && p.cols == Transpose(p.rows)
  }

  /**
   * What `from_rows` builds: rows at least as long as the first, and the
   * columns of the first row's width. Longer rows keep tiles no column holds.
   */
  predicate Formed(p: Platform)
  {
    Indexable(p.rows) && p.cols == Transpose(p.rows)
  }

  /** `Platform::from_str`: rows parsed from the lines, then `from_rows`. */
  method ParsePlatform(lines: seq<string>) returns (p: Platform)
    requires |lines| > 0
    requires forall k :: 0 <= k < |lines| ==> |lines[k]| >= |lines[0]|
    requires forall k, j :: 0 <= k < |lines| && 0 <= j < |lines[k]| ==> lines[k][j] in "#.O"
    ensures |p.rows| == |lines|
    ensures forall k :: 0 <= k < |lines| ==> p.rows[k] == ParseLine(lines[k])
    ensures Formed(p)
  {
    var rows := seq(|lines|, k requires 0 <= k < |lines| => ParseLine(lines[k]));
    p := FromRows(rows);
  }

  // ---------------------------------------------------------------------
  // Tilting
  // ---------------------------------------------------------------------

  function ShiftAllLeft(lines: seq<Line>): (r: seq<Line>)
    ensures |r| == |lines| && forall k :: 0 <= k < |lines| ==> r[k] == ShiftedLeft(lines[k])
  {
    seq(|lines|, k requires 0 <= k < |lines| => ShiftedLeft(lines[k]))
  }

  function ShiftAllRight(lines: seq<Line>): (r: seq<Line>)
    ensures |r| == |lines| && forall k :: 0 <= k < |lines| ==> r[k] == ShiftedRight(lines[k])
  {
    seq(|lines|, k requires 0 <= k < |lines| => ShiftedRight(lines[k]))
  }

  /** All rounded rocks of a sequence of lines. */
  function Total(lines: seq<Line>): nat
  {
    if lines == [] then 0 else Total(lines[..|lines| - 1]) + Count(lines[|lines| - 1])
  }

  /** `w` empty lines. */
  function Blank(w: nat): (r: seq<Line>)
    ensures |r| == w && forall c :: 0 <= c < w ==> r[c] == []
  {
    seq(w, c => [])
  }

  lemma {:induction false} TotalBlank(w: nat)
    ensures Total(Blank(w)) == 0
  {
    if w > 0 {
      assert Blank(w)[..w - 1] == Blank(w - 1);
      TotalBlank(w - 1);
    }
  }

  /** Extending each line by one tile adds the rounded rocks of those tiles. */
  lemma {:induction false} TotalAppendEach(lines: seq<Line>, x: Line)
    requires |lines| == |x|
    ensures Total(seq(|lines|, c requires 0 <= c < |lines| => lines[c] + [x[c]])) == Total(lines) + Count(x)
  {
    var n := |lines|;
    var ext := seq(n, c requires 0 <= c < n => lines[c] + [x[c]]);
    if n > 0 {
      var lines', x' := lines[..n - 1], x[..n - 1];
      assert ext[..n - 1] == seq(n - 1, c requires 0 <= c < n - 1 => lines'[c] + [x'[c]]);
      TotalAppendEach(lines', x');
      assert x == x' + [x[n - 1]];
    }
  }

  /** Counting by columns gives the same total as counting by rows. */
  lemma {:induction false} TotalColumns(lines: seq<Line>, w: nat)
    requires forall k :: 0 <= k < |lines| ==> |lines[k]| == w
    ensures Total(Columns(lines, w)) == Total(lines)
    decreases |lines|
  {
    var n := |lines|;
    if n == 0 {
      assert Columns(lines, w) == Blank(w);
      TotalBlank(w);
    } else {
      var front, last := lines[..n - 1], lines[n - 1];
      var cols' := Columns(front, w);
      TotalColumns(front, w);
      forall c | 0 <= c < w ensures Columns(lines, w)[c] == cols'[c] + [last[c]] {
        assert |Columns(lines, w)[c]| == |cols'[c] + [last[c]]|;
      }
      assert Columns(lines, w) == seq(w, c requires 0 <= c < w => cols'[c] + [last[c]]);
      TotalAppendEach(cols', last);
    }
  }

  lemma TotalTranspose(lines: seq<Line>)
    requires Rectangular(lines)
    ensures Total(Transpose(lines)) == Total(lines)
  {
    TotalColumns(lines, |lines[0]|);
  }

  lemma {:induction false} TotalShiftLeft(lines: seq<Line>)
    ensures Total(ShiftAllLeft(lines)) == Total(lines)
  {
    if lines != [] {
      var n := |lines|;
      assert ShiftAllLeft(lines)[..n - 1] == ShiftAllLeft(lines[..n - 1]);
      TotalShiftLeft(lines[..n - 1]);
      ShiftedLeftKeepsRounds(lines[n - 1]);
    }
  }

  lemma {:induction false} TotalShiftRight(lines: seq<Line>)
    ensures Total(ShiftAllRight(lines)) == Total(lines)
  {
    if lines != [] {
      var n := |lines|;
      assert ShiftAllRight(lines)[..n - 1] == ShiftAllRight(lines[..n - 1]);
      TotalShiftRight(lines[..n - 1]);
      ShiftedRightKeepsRounds(lines[n - 1]);
    }
  }

  /** Same height and width, and the same number of rounded rocks. */
  predicate SameShape(p: Platform, q: Platform)
    requires Valid(p) && Valid(q)
  {
    |q.rows| == |p.rows| && |q.rows[0]| == |p.rows[0]| && Total(q.rows) == Total(p.rows)
  }

  /**
   * A platform rebuilt from shifted columns is a rectangle of the first row's
   * width, and keeps the shape of `p` when `p` was a rectangle already.
   */
  lemma TiltedByColumns(p: Platform, q: Platform)
    requires Formed(p) && |p.rows[0]| > 0
    requires q.cols == ShiftAllLeft(p.cols) || q.cols == ShiftAllRight(p.cols)
    requires Indexable(q.cols) && q.rows == Transpose(q.cols)
    ensures Valid(q) && |q.rows| == |p.rows| && |q.rows[0]| == |p.rows[0]|
    ensures Valid(p) ==> SameShape(p, q)
  {
    assert Rectangular(q.cols);
    TransposeTwice(q.cols);
    if Valid(p) {
      TransposeTwice(p.rows);
      TotalTranspose(p.rows);
      TotalTranspose(q.cols);
      TotalShiftLeft(p.cols);
      TotalShiftRight(p.cols);
    }
  }

  /** A platform rebuilt from shifted rows is formed as `p` is, and keeps its shape when `p` is a rectangle. */
  lemma TiltedByRows(p: Platform, q: Platform)
    requires Formed(p)
    requires q.rows == ShiftAllLeft(p.rows) || q.rows == ShiftAllRight(p.rows)
    requires Indexable(q.rows) && q.cols == Transpose(q.rows)
    ensures Formed(q) && |q.rows| == |p.rows|
    ensures forall k :: 0 <= k < |p.rows| ==> |q.rows[k]| == |p.rows[k]|
    ensures Valid(p) ==> Valid(q) && SameShape(p, q)
  {
    TotalShiftLeft(p.rows);
    TotalShiftRight(p.rows);
  }

  /** The loop each tilt runs: every line shifted left, in order. */
  method ShiftEachLeft(lines: seq<Line>) returns (r: seq<Line>)
    ensures r == ShiftAllLeft(lines)
  {
    r := [];
    for k := 0 to |lines|
      invariant r == ShiftAllLeft(lines[..k])
    {
      var line := ShiftLeft(lines[k]);
      assert ShiftAllLeft(lines[..k + 1]) == ShiftAllLeft(lines[..k]) + [line];
      r := r + [line];
    }
    assert lines[..|lines|] == lines;
  }

  /** The loop each tilt runs: every line shifted right, in order. */
  method ShiftEachRight(lines: seq<Line>) returns (r: seq<Line>)
    ensures r == ShiftAllRight(lines)
  {
    r := [];
    for k := 0 to |lines|
      invariant r == ShiftAllRight(lines[..k])
    {
      var line := ShiftRight(lines[k]);
      assert ShiftAllRight(lines[..k + 1]) == ShiftAllRight(lines[..k]) + [line];
      r := r + [line];
    }
    assert lines[..|lines|] == lines;
  }

  /**
   * The platform tilted north: every column shifted towards its first cell,
   * the rows rebuilt from the columns. Tiles beyond the first row's width
   * have no column and are gone. With an empty first row, `from_cols` panics.
   */
  function North(p: Platform): (q: Platform)
    requires Formed(p) && |p.rows[0]| > 0
    ensures q.cols == ShiftAllLeft(p.cols)
    ensures Valid(q) && |q.rows| == |p.rows| && |q.rows[0]| == |p.rows[0]|
    ensures Valid(p) ==> SameShape(p, q)
  {
    var cols := ShiftAllLeft(p.cols);
    var q := Platform(Transpose(cols), cols);
    TiltedByColumns(p, q);
    q
  }

  /** The platform tilted west: every row shifted towards its first cell, each keeping its length. */
  function West(p: Platform): (q: Platform)
    requires Formed(p)
    ensures q.rows == ShiftAllLeft(p.rows)
    ensures Formed(q) && forall k :: 0 <= k < |p.rows| ==> |q.rows[k]| == |p.rows[k]|
    ensures Valid(p) ==> Valid(q) && SameShape(p, q)
  {
    var rows := ShiftAllLeft(p.rows);
    var q := Platform(rows, Transpose(rows));
    TiltedByRows(p, q);
    q
  }

  /** The platform tilted south: every column shifted towards its last cell, the rows rebuilt from them. */
  function South(p: Platform): (q: Platform)
    requires Formed(p) && |p.rows[0]| > 0
    ensures q.cols == ShiftAllRight(p.cols)
    ensures Valid(q) && |q.rows| == |p.rows| && |q.rows[0]| == |p.rows[0]|
    ensures Valid(p) ==> SameShape(p, q)
  {
    var cols := ShiftAllRight(p.cols);
    var q := Platform(Transpose(cols), cols);
    TiltedByColumns(p, q);
    q
  }

  /** The platform tilted east: every row shifted towards its last cell, each keeping its length. */
  function East(p: Platform): (q: Platform)
    requires Formed(p)
    ensures q.rows == ShiftAllRight(p.rows)
    ensures Formed(q) && forall k :: 0 <= k < |p.rows| ==> |q.rows[k]| == |p.rows[k]|
    ensures Valid(p) ==> Valid(q) && SameShape(p, q)
  {
    var rows := ShiftAllRight(p.rows);
    var q := Platform(rows, Transpose(rows));
    TiltedByRows(p, q);
    q
  }

  /** `tilt_north`: the column loop computes the north tilt. */
  method TiltNorth(p: Platform) returns (q: Platform)
    requires Formed(p) && |p.rows[0]| > 0
    ensures q == North(p)
  {
    var newCols := ShiftEachLeft(p.cols);
    q := FromCols(newCols);
  }

  /** `tilt_west`: the row loop computes the west tilt. */
  method TiltWest(p: Platform) returns (q: Platform)
    requires Formed(p)
    ensures q == West(p)
  {
    var newRows := ShiftEachLeft(p.rows);
    q := FromRows(newRows);
  }

  /** `tilt_south`: the column loop computes the south tilt. */
  method TiltSouth(p: Platform) returns (q: Platform)
    requires Formed(p) && |p.rows[0]| > 0
    ensures q == South(p)
  {
    var newCols := ShiftEachRight(p.cols);
    q := FromCols(newCols);
  }

  /** `tilt_east`: the row loop computes the east tilt. */
  method TiltEast(p: Platform) returns (q: Platform)
    requires Formed(p)
    ensures q == East(p)
  {
    var newRows := ShiftEachRight(p.rows);
    q := FromRows(newRows);
  }

  /** Tilting a platform the same way twice is tilting it once. */
  lemma TiltTwice(p: Platform)
    requires Formed(p) && |p.rows[0]| > 0
    ensures North(North(p)) == North(p) && West(West(p)) == West(p)
    ensures South(South(p)) == South(p) && East(East(p)) == East(p)
  {
    ShiftAllLeftTwice(p.cols);
    ShiftAllLeftTwice(p.rows);
    ShiftAllRightTwice(p.cols);
    ShiftAllRightTwice(p.rows);
  }

  lemma ShiftAllLeftTwice(lines: seq<Line>)
    ensures ShiftAllLeft(ShiftAllLeft(lines)) == ShiftAllLeft(lines)
  {
    forall k | 0 <= k < |lines| ensures ShiftedLeft(ShiftedLeft(lines[k])) == ShiftedLeft(lines[k]) {
      ShiftLeftIdempotent(lines[k]);
    }
  }

  lemma ShiftAllRightTwice(lines: seq<Line>)
    ensures ShiftAllRight(ShiftAllRight(lines)) == ShiftAllRight(lines)
  {
    forall k | 0 <= k < |lines| ensures ShiftedRight(ShiftedRight(lines[k])) == ShiftedRight(lines[k]) {
      ShiftRightIdempotent(lines[k]);
    }
  }

  /**
   * One spin cycle of the main loop: north, west, south, then east. The
   * first tilt already leaves a rectangle of the first row's width.
   */
  method SpinCycle(p: Platform) returns (q: Platform)
    requires Formed(p) && |p.rows[0]| > 0
    ensures q == East(South(West(North(p))))
    ensures Valid(q) && |q.rows| == |p.rows| && |q.rows[0]| == |p.rows[0]|
    ensures Valid(p) ==> SameShape(p, q)
  {
    var n := TiltNorth(p);
    var w := TiltWest(n);
    var s := TiltSouth(w);
    q := TiltEast(s);
  }

  // ---------------------------------------------------------------------
  // Load
  // ---------------------------------------------------------------------

  /** Each row's rounded rocks count once per row from it to the south edge, itself included. */
  function Load(rows: seq<Line>): nat
  {
    if rows == [] then 0 else Count(rows[0]) * |rows| + Load(rows[1..])
  }

  /** Counting the rounded rocks from the first line on. */
  lemma {:induction false} TotalCons(lines: seq<Line>)
    requires lines != []
    ensures Total(lines) == Count(lines[0]) + Total(lines[1..])
    decreases |lines|
  {
    if |lines| == 1 {
      assert lines[1..] == [] && lines[..0] == [];
    } else {
      var front := lines[..|lines| - 1];
      TotalCons(front);
      assert front[1..] == lines[1..][..|lines| - 2];
    }
  }

  /** Every rounded rock weighs at least 1 and at most the number of rows. */
  lemma {:induction false} LoadBounds(rows: seq<Line>)
    ensures Total(rows) <= Load(rows) <= |rows| * Total(rows)
    decreases |rows|
  {
    if rows != [] {
      var n, c, t := |rows|, Count(rows[0]), Total(rows[1..]);
      TotalCons(rows);
      LoadBounds(rows[1..]);
      WeightStep(n, c, t, Load(rows[1..]));
    }
  }

  /** The arithmetic step of `LoadBounds`: one more row of `c` rocks, each weighing `n`. */
  lemma WeightStep(n: nat, c: nat, t: nat, l: nat)
    requires n >= 1 && t <= l <= (n - 1) * t
    ensures c + t <= c * n + l <= n * (c + t)
  {
    assert c * n == c * (n - 1) + c;
    assert n * (c + t) == c * n + (n - 1) * t + t;
  }

  /** `north_load`: rows from the south edge up, with a weight that grows by one per row. */
  method NorthLoad(p: Platform) returns (total: nat)
    ensures total == Load(p.rows)
  {
    var rowLoad := 1;
    total := 0;
    var i := |p.rows|;
    while i > 0
      invariant 0 <= i <= |p.rows|
      invariant rowLoad == |p.rows| - i + 1
      invariant total == Load(p.rows[i..])
    {
      i := i - 1;
      assert p.rows[i..][1..] == p.rows[i + 1..];
      total := total + Count(p.rows[i]) * rowLoad;
      rowLoad := rowLoad + 1;
    }
  }
}
