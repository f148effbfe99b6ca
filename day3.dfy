/**
 * Day 3: part numbers in an engine schematic. Each row is scanned left to
 * right; a run of digits is a number, and the number is a part when a symbol
 * lies in the rectangle around it.
 *
 * `FindPartNumbers` and `PartsAsWritten` follow the source's scan exactly,
 * including two slips: a run that reaches the last column is never checked,
 * and the rectangle reaches one column beyond the cell that ends the run.
 * `FindParts` and `Parts` are the scan with both corrected, and
 * `WindowIsNeighbourhood` shows that the corrected rectangle holds a symbol
 * exactly when a symbol touches one of the run's digits.
 */
module Day3 {

  /** `Character`: `None` in the source is `Blank` here. */
  datatype Character = Blank | Digit(d: nat) | Symbol

  type Grid = seq<seq<Character>>

  // ---------------------------------------------------------------------
  // Reading the schematic
  // ---------------------------------------------------------------------

  /** `Character::from_char`: `.` is blank, a decimal digit is its value, anything else a symbol. */
  function CharacterOf(ch: char): (x: Character)
    ensures x == Blank <==> ch == '.'
    ensures x.Digit? <==> '0' <= ch <= '9'
    ensures x.Digit? ==> x.d < 10 && x.d == ch as int - '0' as int
  {
    if ch == '.' then Blank
    else if '0' <= ch <= '9' then Digit(ch as int - '0' as int)
    else Symbol
  }

  /** The character a blank or a digit is written with. */
  function CharOf(x: Character): char
    requires x != Symbol && (x.Digit? ==> x.d < 10)
  {
    match x
    case Blank => '.'
    case Digit(d) => ('0' as int + d) as char
  }

  /** Blanks and digits read back as themselves; only symbols lose their character. */
  lemma CharacterRoundTrip(x: Character, ch: char)
    ensures x != Symbol && (x.Digit? ==> x.d < 10) ==> CharacterOf(CharOf(x)) == x
    ensures CharacterOf(ch) != Symbol ==> CharOf(CharacterOf(ch)) == ch
  {
  }

  function SchematicOf(lines: seq<string>): (g: Grid)
    ensures |g| == |lines| && forall r :: 0 <= r < |lines| ==> |g[r]| == |lines[r]|
  {
    seq(|lines|, r requires 0 <= r < |lines| => seq(|lines[r]|, c requires 0 <= c < |lines[r]| => CharacterOf(lines[r][c])))
  }

  /** `Schematic::from_str`: one row per line, one character per cell. */
  method ParseSchematic(lines: seq<string>) returns (g: Grid)
    ensures g == SchematicOf(lines)
  {
    g := [];
    for r := 0 to |lines|
      invariant g == SchematicOf(lines[..r])
    {
      var row: seq<Character> := [];
      for c := 0 to |lines[r]|
        invariant row == seq(c, k requires 0 <= k < c => CharacterOf(lines[r][k]))
      {
        row := row + [CharacterOf(lines[r][c])];
      }
      g := g + [row];
    }
    assert lines[..|lines|] == lines;
  }

  /**
   * What the scan needs to stay inside the grid: `columns` is the first row's
   * width, and the scan indexes every row up to it.
   */
  predicate WellFormed(g: Grid)
  {
    |g| == 0 || forall r :: 0 <= r < |g| ==> |g[r]| >= |g[0]|
  }

  function Columns(g: Grid): nat
  {
    if |g| == 0 then 0 else |g[0]|
  }

  // ---------------------------------------------------------------------
  // Runs of digits
  // ---------------------------------------------------------------------

  /** Where the run of digits ending just before `e` starts (`e` itself if `e - 1` holds no digit). */
  function RunStart(row: seq<Character>, e: nat): (s: nat)
    requires e <= |row|
    ensures s <= e
    ensures forall k :: s <= k < e ==> row[k].Digit?
    ensures s == 0 || !row[s - 1].Digit?
  {
    if e > 0 && row[e - 1].Digit? then RunStart(row, e - 1) else e
  }

  /** The number the scan accumulates over the digits `s` up to `e`: `number * 10 + digit` per digit. */
  function Value(row: seq<Character>, s: nat, e: nat): nat
    requires s <= e <= |row| && forall k :: s <= k < e ==> row[k].Digit?
    decreases e
  {
    if e == s then 0 else Value(row, s, e - 1) * 10 + row[e - 1].d
  }

  function Pow10(n: nat): nat
  {
    if n == 0 then 1 else 10 * Pow10(n - 1)
  }

  /** The usual positional reading: the first digit weighs `10^(length - 1)`. */
  function Positional(row: seq<Character>, s: nat, e: nat): nat
    requires s <= e <= |row| && forall k :: s <= k < e ==> row[k].Digit?
    decreases e - s
  {
    if e == s then 0 else row[s].d * Pow10(e - s - 1) + Positional(row, s + 1, e)
  }

  /** The accumulated number is the decimal value of the digits read left to right. */
  lemma {:induction false} ValueIsPositional(row: seq<Character>, s: nat, e: nat)
    requires s <= e <= |row| && forall k :: s <= k < e ==> row[k].Digit?
    ensures Value(row, s, e) == Positional(row, s, e)
    decreases e - s
  {
    if s < e {
      ValueIsPositional(row, s + 1, e);
      if s + 1 < e {
        ValueShift(row, s, e);
      }
    }
  }

  lemma {:induction false} ValueShift(row: seq<Character>, s: nat, e: nat)
    requires s + 1 < e <= |row| && forall k :: s <= k < e ==> row[k].Digit?
    ensures Value(row, s, e) == row[s].d * Pow10(e - s - 1) + Value(row, s + 1, e)
    decreases e
  {
    if s + 2 < e {
      ValueShift(row, s, e - 1);
      var p := Pow10(e - s - 2);
      assert Pow10(e - s - 1) == 10 * p;
      calc {
        Value(row, s, e);
        Value(row, s, e - 1) * 10 + row[e - 1].d;
        (row[s].d * p + Value(row, s + 1, e - 1)) * 10 + row[e - 1].d;
        row[s].d * (10 * p) + (Value(row, s + 1, e - 1) * 10 + row[e - 1].d);
        row[s].d * Pow10(e - s - 1) + Value(row, s + 1, e);
      }
    } else {
      assert Value(row, s, s + 1) == row[s].d;
      assert Value(row, s + 1, s + 2) == row[s + 1].d;
      assert Pow10(1) == 10;
    }
  }

  /** Column `t` holds no digit and ends a run of digits just before it. */
  predicate Terminates(row: seq<Character>, t: nat)
    requires t < |row|
  {
    t > 0 && row[t - 1].Digit? && !row[t].Digit?
  }

  // ---------------------------------------------------------------------
  // Looking for symbols
  // ---------------------------------------------------------------------

  /** Some cell of the inclusive rectangle holds a symbol. */
  predicate HasSymbol(g: Grid, minR: nat, maxR: nat, minC: nat, maxC: nat)
    requires maxR < |g| && forall i :: minR <= i <= maxR ==> maxC < |g[i]|
  {
    exists i, j :: minR <= i <= maxR && minC <= j <= maxC && g[i][j] == Symbol
  }

  /** `Schematic::contains_symbol`: scans the rectangle row by row and stops at the first symbol. */
  method ContainsSymbol(g: Grid, minR: nat, maxR: nat, minC: nat, maxC: nat) returns (found: bool)
    requires maxR < |g| && forall i :: minR <= i <= maxR ==> maxC < |g[i]|
    ensures found == HasSymbol(g, minR, maxR, minC, maxC)
  {
    var r := minR;
    while r <= maxR
      invariant minR <= r && (minR <= maxR ==> r <= maxR + 1)
      invariant forall i, j :: minR <= i < r && i <= maxR && minC <= j <= maxC ==> g[i][j] != Symbol
      decreases maxR + 1 - r
    {
      var c := minC;
      while c <= maxC
        invariant minC <= c && (minC <= maxC ==> c <= maxC + 1)
        invariant forall j :: minC <= j < c && j <= maxC ==> g[r][j] != Symbol
        decreases maxC + 1 - c
      {
        if g[r][c] == Symbol {
          return true;
        }
        c := c + 1;
      }
      r := r + 1;
    }
    return false;
  }

  /** The rows `find_part_numbers` checks around row `r`, clamped to the grid. */
  function MinRow(r: nat): nat { if r == 0 then 0 else r - 1 }
  function MaxRow(g: Grid, r: nat): nat requires r < |g| { if r == |g| - 1 then r else r + 1 }
  function MinCol(s: nat): nat { if s == 0 then 0 else s - 1 }

  /** As written: the last column checked for the run ended at column `t`. */
  function MaxColAsWritten(g: Grid, t: nat): nat
  {
    if t == Columns(g) - 1 then t else t + 1
  }

  // ---------------------------------------------------------------------
  // The scan as written
  // ---------------------------------------------------------------------

  /** The source's test for the run that column `t` of row `r` ends. */
  predicate PushedAsWritten(g: Grid, r: nat, t: nat)
    requires WellFormed(g) && r < |g| && t < Columns(g) && Terminates(g[r], t)
  {
    HasSymbol(g, MinRow(r), MaxRow(g, r), MinCol(RunStart(g[r], t)), MaxColAsWritten(g, t))
  }

  /** The numbers row `r` contributes from the cells before column `c`, as the source pushes them. */
  function RowPartsAsWritten(g: Grid, r: nat, c: nat): seq<nat>
    requires WellFormed(g) && r < |g| && c <= Columns(g)
  {
    if c == 0 then []
    else
      var t := c - 1;
      RowPartsAsWritten(g, r, t) +
        (if Terminates(g[r], t) && PushedAsWritten(g, r, t) then [Value(g[r], RunStart(g[r], t), t)] else [])
  }

  /** The numbers of the first `n` rows, as the source pushes them. */
  function PartsAsWritten(g: Grid, n: nat): seq<nat>
    requires WellFormed(g) && n <= |g|
  {
    if n == 0 then [] else PartsAsWritten(g, n - 1) + RowPartsAsWritten(g, n - 1, Columns(g))
  }

  /** `Schematic::find_part_numbers`, as written. */
  method FindPartNumbers(g: Grid) returns (parts: seq<nat>)
    requires WellFormed(g)
    ensures parts == PartsAsWritten(g, |g|)
  {
    parts := [];
    for r := 0 to |g|
      invariant parts == PartsAsWritten(g, r)
    {
      var row := ScanRowAsWritten(g, r);
      parts := parts + row;
    }
  }

  /** One row of `find_part_numbers`, as written: `start` and `number` follow the current run. */
  method ScanRowAsWritten(g: Grid, r: nat) returns (parts: seq<nat>)
    requires WellFormed(g) && r < |g|
    ensures parts == RowPartsAsWritten(g, r, Columns(g))
  {
    parts := [];
    var columns := |g[0]|;
    var start: nat := 0;
    var inRun := false;
    var number: nat := 0;
    for c := 0 to columns
      invariant inRun <==> c > 0 && g[r][c - 1].Digit?
      invariant inRun ==> start == RunStart(g[r], c) && number == Value(g[r], start, c)
      invariant parts == RowPartsAsWritten(g, r, c)
    {
      match g[r][c] {
        case Digit(digit) =>
          if !inRun {
            start, inRun, number := c, true, digit;
          } else {
            number := number * 10 + digit;
          }
        case _ =>
          if inRun {
            var maxC := if c == columns - 1 then c else c + 1;
            var found := ContainsSymbol(g, MinRow(r), MaxRow(g, r), MinCol(start), maxC);
            if found {
              parts := parts + [number];
            }
          }
          inRun := false;
      }
    }
  }

  // ---------------------------------------------------------------------
  // The scan corrected
  // ---------------------------------------------------------------------

  /** The corrected test for the run of digits `s` up to `e` in row `r`: the rectangle just around it. */
  predicate Touched(g: Grid, r: nat, s: nat, e: nat)
    requires WellFormed(g) && r < |g| && s < e <= Columns(g)
  {
    HasSymbol(g, MinRow(r), MaxRow(g, r), MinCol(s), if e == Columns(g) then e - 1 else e)
  }

  /** The part numbers of row `r` ended before column `c`, with the corrected test. */
  function RowParts(g: Grid, r: nat, c: nat): seq<nat>
    requires WellFormed(g) && r < |g| && c <= Columns(g)
  {
    if c == 0 then []
    else
      var t := c - 1;
      RowParts(g, r, t) +
        (if Terminates(g[r], t) && Touched(g, r, RunStart(g[r], t), t) then [Value(g[r], RunStart(g[r], t), t)] else [])
  }

  /** The part number, if any, of the run that reaches the end of row `r`. */
  function LastRun(g: Grid, r: nat): seq<nat>
    requires WellFormed(g) && r < |g|
  {
    var n := Columns(g);
    if n > 0 && g[r][n - 1].Digit? && Touched(g, r, RunStart(g[r], n), n) then [Value(g[r], RunStart(g[r], n), n)] else []
  }

  /** The part numbers of the first `n` rows, each row's in the order their runs end. */
  function Parts(g: Grid, n: nat): seq<nat>
    requires WellFormed(g) && n <= |g|
  {
    if n == 0 then [] else Parts(g, n - 1) + RowParts(g, n - 1, Columns(g)) + LastRun(g, n - 1)
  }

  /** `find_part_numbers` corrected: the rectangle stops at the column after the run, and a run at the row's end is checked too. */
  method FindParts(g: Grid) returns (parts: seq<nat>)
    requires WellFormed(g)
    ensures parts == Parts(g, |g|)
  {
    parts := [];
    for r := 0 to |g|
      invariant parts == Parts(g, r)
    {
      var row := ScanRow(g, r);
      parts := parts + row;
    }
  }

  /** One row of the corrected scan. */
  method ScanRow(g: Grid, r: nat) returns (parts: seq<nat>)
    requires WellFormed(g) && r < |g|
    ensures parts == RowParts(g, r, Columns(g)) + LastRun(g, r)
  {
    parts := [];
    var columns := |g[0]|;
    var start: nat := 0;
    var inRun := false;
    var number: nat := 0;
    for c := 0 to columns
      invariant inRun <==> c > 0 && g[r][c - 1].Digit?
      invariant inRun ==> start == RunStart(g[r], c) && number == Value(g[r], start, c)
      invariant parts == RowParts(g, r, c)
    {
      match g[r][c] {
        case Digit(digit) =>
          if !inRun {
            start, inRun, number := c, true, digit;
          } else {
            number := number * 10 + digit;
          }
        case _ =>
          if inRun {
            var found := ContainsSymbol(g, MinRow(r), MaxRow(g, r), MinCol(start), c);
            if found {
              parts := parts + [number];
            }
          }
          inRun := false;
      }
    }
    if inRun {
      var found := ContainsSymbol(g, MinRow(r), MaxRow(g, r), MinCol(start), columns - 1);
      if found {
        parts := parts + [number];
      }
    }
  }

  /** Rows or columns at most one apart. */
  predicate Near(x: int, y: int)
  {
    -1 <= x - y <= 1
  }

  /**
   * The corrected rectangle holds a symbol exactly when some cell touching one
   * of the run's digits (sideways or diagonally) holds one.
   */
  lemma WindowIsNeighbourhood(g: Grid, r: nat, s: nat, e: nat)
    requires WellFormed(g) && r < |g| && s < e <= Columns(g)
    ensures Touched(g, r, s, e) <==>
      exists k, i, j :: s <= k < e && 0 <= i < |g| && 0 <= j < Columns(g) && Near(i, r) && Near(j, k) && g[i][j] == Symbol
  {
    var maxC := if e == Columns(g) then e - 1 else e;
    if Touched(g, r, s, e) {
      var i, j :| MinRow(r) <= i <= MaxRow(g, r) && MinCol(s) <= j <= maxC && g[i][j] == Symbol;
      var k := if j < s then s else if j >= e then e - 1 else j;
      assert s <= k < e && Near(i, r) && Near(j, k);
    }
    if exists k, i, j :: s <= k < e && 0 <= i < |g| && 0 <= j < Columns(g) && Near(i, r) && Near(j, k) && g[i][j] == Symbol {
      var k, i, j :| s <= k < e && 0 <= i < |g| && 0 <= j < Columns(g) && Near(i, r) && Near(j, k) && g[i][j] == Symbol;
      assert MinRow(r) <= i <= MaxRow(g, r) && MinCol(s) <= j <= maxC;
    }
  }

  // ---------------------------------------------------------------------
  // Where the two scans differ
  // ---------------------------------------------------------------------

  /** `#7`: the 7 touches the symbol but ends the row, so the source never pushes it. */
  lemma LastColumnRunDropped()
    ensures PartsAsWritten([[Symbol, Digit(7)]], 1) == []
    ensures Parts([[Symbol, Digit(7)]], 1) == [7]
  {
    var g := [[Symbol, Digit(7)]];
    assert RunStart(g[0], 2) == 1;
    assert g[0][0] == Symbol;
    assert HasSymbol(g, 0, 0, 0, 1);
  }

  /** `1.#`: the symbol is two columns from the 1, yet the source's rectangle reaches it. */
  lemma WindowTooWide()
    ensures PartsAsWritten([[Digit(1), Blank, Symbol]], 1) == [1]
    ensures Parts([[Digit(1), Blank, Symbol]], 1) == []
  {
    var g := [[Digit(1), Blank, Symbol]];
    assert RunStart(g[0], 1) == 0;
    assert g[0][2] == Symbol;
    assert HasSymbol(g, 0, 0, 0, 2);
    assert !HasSymbol(g, 0, 0, 0, 1);
  }
}
