/**
 * Day 10: a loop of pipes on a grid. Every pipe joins two of its four
 * neighbours; the start tile joins all four. Walking away from the start
 * through each pipe's other end either breaks off or comes back to the start,
 * and the answer is the longest walk that comes back.
 */
module Day10 {
  import opened Wrappers

  /** `Point`: a row and a column; `isize` in the source, unbounded here. */
  datatype Point = Point(r: int, c: int)

  datatype Pipe = NorthSouth | EastWest | NorthEast | NorthWest | SouthWest | SouthEast | Start

  /** `Map`: the pipe found at each point; points holding `.` are absent. */
  datatype Map = Map(pipes: map<Point, Pipe>)

  /** The result of `longest`, with the walks the loop would not finish within the fuel told apart. */
  datatype Outcome = Closed(steps: nat) | Broken | Exhausted

  // ---------------------------------------------------------------------
  // Points and pipes
  // ---------------------------------------------------------------------

  function North(p: Point): Point { Point(p.r - 1, p.c) }
  function South(p: Point): Point { Point(p.r + 1, p.c) }
  function East(p: Point): Point { Point(p.r, p.c + 1) }
  function West(p: Point): Point { Point(p.r, p.c - 1) }

  /** Points one row or one column apart. */
  predicate Adjacent(p: Point, q: Point)
  {
    (p.r == q.r && (p.c - q.c == 1 || q.c - p.c == 1)) ||
    (p.c == q.c && (p.r - q.r == 1 || q.r - p.r == 1))
  }

  /** Each move reaches a neighbour, the four neighbours differ, and opposite moves undo each other. */
  lemma Moves(p: Point)
    ensures Adjacent(p, North(p)) && Adjacent(p, South(p)) && Adjacent(p, East(p)) && Adjacent(p, West(p))
    ensures |{North(p), South(p), East(p), West(p)}| == 4
    ensures South(North(p)) == p && North(South(p)) == p && West(East(p)) == p && East(West(p)) == p
    ensures forall q :: Adjacent(p, q) ==> q in {North(p), South(p), East(p), West(p)}
  {
  }

  const PipeChars := "|-LJ7FS"

  /** `Pipe::from`; any other character panics. */
  function PipeOf(ch: char): Pipe
    requires ch in PipeChars
  {
    match ch
    case '|' => NorthSouth
    case '-' => EastWest
    case 'L' => NorthEast
    case 'J' => NorthWest
    case '7' => SouthWest
    case 'F' => SouthEast
    case 'S' => Start
  }

  /** The character each pipe is drawn with. */
  function PipeChar(p: Pipe): (ch: char)
    ensures ch in PipeChars
  {
    match p
    case NorthSouth => '|'
    case EastWest => '-'
    case NorthEast => 'L'
    case NorthWest => 'J'
    case SouthWest => '7'
    case SouthEast => 'F'
    case Start => 'S'
  }

  /** `Pipe::from` reads back every drawn pipe and is one-to-one on its characters. */
  lemma PipeCharRoundTrip(p: Pipe, ch: char)
    ensures PipeOf(PipeChar(p)) == p
    ensures ch in PipeChars ==> PipeChar(PipeOf(ch)) == ch
  {
  }

  /** `Pipe::points`: the neighbours a pipe at `p` joins. */
  function Points(pipe: Pipe, p: Point): (r: seq<Point>)
    ensures |r| == if pipe == Start then 4 else 2
    ensures forall i :: 0 <= i < |r| ==> Adjacent(p, r[i])
    ensures forall i, j :: 0 <= i < j < |r| ==> r[i] != r[j]
    ensures pipe == Start ==> r == [North(p), South(p), East(p), West(p)]
  {
    match pipe
    case NorthSouth => [North(p), South(p)]
    case EastWest => [East(p), West(p)]
    case NorthEast => [North(p), East(p)]
    case NorthWest => [North(p), West(p)]
    case SouthWest => [South(p), West(p)]
    case SouthEast => [South(p), East(p)]
    case Start => [North(p), South(p), East(p), West(p)]
  }

  // ---------------------------------------------------------------------
  // Parsing
  // ---------------------------------------------------------------------

  /** Every character is a pipe or `.`, so `Pipe::from` never panics. */
  predicate Drawable(lines: seq<string>)
  {
    forall r, c :: 0 <= r < |lines| && 0 <= c < |lines[r]| ==> lines[r][c] == '.' || lines[r][c] in PipeChars
  }

  /** The pipes of rows before `r` and of row `r` before column `c`. */
  function DrawnBefore(lines: seq<string>, r: int, c: int): map<Point, Pipe>
    requires Drawable(lines)
  {
    map i, j | 0 <= i < |lines| && 0 <= j < |lines[i]| && (i < r || (i == r && j < c)) && lines[i][j] != '.'
      :: Point(i, j) := PipeOf(lines[i][j])
  }

  /** The map `Map::from_str` builds: the pipe of every character other than `.`, at its row and column. */
  function PipesOf(lines: seq<string>): map<Point, Pipe>
    requires Drawable(lines)
  {
    DrawnBefore(lines, |lines|, 0)
  }

  lemma DrawnStep(lines: seq<string>, r: nat, c: nat)
    requires Drawable(lines) && r < |lines| && c < |lines[r]|
    ensures DrawnBefore(lines, r, c + 1) ==
      if lines[r][c] == '.' then DrawnBefore(lines, r, c)
      else DrawnBefore(lines, r, c)[Point(r, c) := PipeOf(lines[r][c])]
  {
  }

  lemma DrawnRow(lines: seq<string>, r: nat)
    requires Drawable(lines) && r < |lines|
    ensures DrawnBefore(lines, r, |lines[r]|) == DrawnBefore(lines, r + 1, 0)
  {
  }

  /** `Map::from_str`: walks the rows and columns, counting both, and records every pipe. */
  method ParseMap(lines: seq<string>) returns (m: Map)
    requires Drawable(lines)
    ensures m.pipes == PipesOf(lines)
  {
    var pipes: map<Point, Pipe> := map[];
    for r := 0 to |lines|
      invariant pipes == DrawnBefore(lines, r, 0)
    {
      for c := 0 to |lines[r]|
        invariant pipes == DrawnBefore(lines, r, c)
      {
        DrawnStep(lines, r, c);
        if lines[r][c] != '.' {
          pipes := pipes[Point(r, c) := PipeOf(lines[r][c])];
        }
      }
      DrawnRow(lines, r);
    }
    m := Map(pipes);
  }

  /** The grid drawn back from a map, with the given row lengths. */
  function Render(pipes: map<Point, Pipe>, widths: seq<nat>): (lines: seq<string>)
    ensures |lines| == |widths| && forall r :: 0 <= r < |widths| ==> |lines[r]| == widths[r]
  {
    seq(|widths|, r requires 0 <= r < |widths| =>
      seq(widths[r], c => if Point(r, c) in pipes then PipeChar(pipes[Point(r, c)]) else '.'))
  }

  function Widths(lines: seq<string>): seq<nat>
  {
    seq(|lines|, r requires 0 <= r < |lines| => |lines[r]|)
  }

  /** Drawing the parsed map gives back the text. */
  lemma RenderParsed(lines: seq<string>)
    requires Drawable(lines)
    ensures Render(PipesOf(lines), Widths(lines)) == lines
  {
    var back := Render(PipesOf(lines), Widths(lines));
    forall r | 0 <= r < |lines| ensures back[r] == lines[r] {
      forall c | 0 <= c < |lines[r]| ensures back[r][c] == lines[r][c] {
        if lines[r][c] != '.' {
          PipeCharRoundTrip(PipesOf(lines)[Point(r, c)], lines[r][c]);
        }
      }
    }
  }

  /** Parsing a drawn map gives back the map, when its points lie inside the rows. */
  lemma ParseRendered(pipes: map<Point, Pipe>, widths: seq<nat>)
    requires forall p :: p in pipes ==> 0 <= p.r < |widths| && 0 <= p.c < widths[p.r]
    ensures Drawable(Render(pipes, widths)) && PipesOf(Render(pipes, widths)) == pipes
  {
    var lines := Render(pipes, widths);
    forall p | p in pipes ensures p in PipesOf(lines) && PipesOf(lines)[p] == pipes[p] {
      assert lines[p.r][p.c] == PipeChar(pipes[p]);
      PipeCharRoundTrip(pipes[p], lines[p.r][p.c]);
    }
  }

  // ---------------------------------------------------------------------
  // Walking the loop
  // ---------------------------------------------------------------------

  /**
   * `Map::next`: arriving at `current` from `previous`, the point the pipe
   * there leads to. `None` when there is no pipe, when it is the start (whose
   * four points are not two), or when the pipe does not join `previous`.
   */
  function Next(m: Map, previous: Point, current: Point): (r: Option<Point>)
    ensures r.Some? <==>
      current in m.pipes && m.pipes[current] != Start && previous in Points(m.pipes[current], current)
    ensures r.Some? ==>
      r.value != previous && {previous, r.value} == set q | q in Points(m.pipes[current], current)
  {
    if current in m.pipes then
      var points := Points(m.pipes[current], current);
      if |points| == 2 then
        if points[0] == previous then Some(points[1])
        else if points[1] == previous then Some(points[0])
        else None
      else None
    else None
  }

  /** A pipe can be walked both ways. */
  lemma NextReverse(m: Map, previous: Point, current: Point)
    requires Next(m, previous, current).Some?
    ensures Next(m, Next(m, previous, current).value, current) == Some(previous)
  {
  }

  /**
   * The walk `longest` makes, as a function: at `current` with `steps` moves
   * made, stop if back at `start`, otherwise follow the pipe. The walk may go
   * on forever, so it takes at most `fuel` more moves.
   */
  function Walk(m: Map, start: Point, previous: Point, current: Point, steps: nat, fuel: nat): Outcome
    decreases fuel
  {
    if current == start then Closed(steps)
    else if fuel == 0 then Exhausted
    else match Next(m, previous, current)
      case None => Broken
      case Some(next) => Walk(m, start, current, next, steps + 1, fuel - 1)
  }

  /** `Map::longest`: walks from `start` through `next` until it is back at `start` or a pipe does not continue. */
  method Longest(m: Map, start: Point, next: Point, fuel: nat) returns (r: Outcome)
    ensures r == Walk(m, start, start, next, 1, fuel)
  {
    var previous, current := start, next;
    var steps: nat := 1;
    var left := fuel;
    while current != start
      invariant Walk(m, start, previous, current, steps, left) == Walk(m, start, start, next, 1, fuel)
      decreases left
    {
      if left == 0 {
        return Exhausted;
      }
      var n := Next(m, previous, current);
      if n.None? {
        return Broken;
      }
      previous, current := current, n.value;
      steps := steps + 1;
      left := left - 1;
    }
    return Closed(steps);
  }

  /** Consecutive points of `path` follow the pipes: each point is where `Next` leads from the two before it. */
  predicate Follows(m: Map, path: seq<Point>)
  {
    forall i :: 2 <= i < |path| ==> Next(m, path[i - 2], path[i - 1]) == Some(path[i])
  }

  /** Starting with `previous` and `current`, `path` follows the pipes to `start`, touching it only at the end. */
  predicate WalkPath(m: Map, start: Point, previous: Point, current: Point, path: seq<Point>)
  {
    |path| >= 2 && path[0] == previous && path[1] == current && path[|path| - 1] == start &&
    (forall i :: 1 <= i < |path| - 1 ==> path[i] != start) &&
    Follows(m, path)
  }

  /** A walk closes after `k` more moves exactly when a path of `k + 2` points leads back to the start. */
  lemma {:induction false} WalkClosed(m: Map, start: Point, previous: Point, current: Point, steps: nat, fuel: nat)
    returns (path: seq<Point>)
    requires Walk(m, start, previous, current, steps, fuel).Closed?
    ensures WalkPath(m, start, previous, current, path)
    ensures Walk(m, start, previous, current, steps, fuel).steps == steps + |path| - 2
    ensures |path| - 2 <= fuel
    decreases fuel
  {
    if current == start {
      path := [previous, current];
    } else {
      var next := Next(m, previous, current).value;
      var rest := WalkClosed(m, start, current, next, steps + 1, fuel - 1);
      path := [previous] + rest;
      assert path[1..] == rest;
      forall i | 2 <= i < |path| ensures Next(m, path[i - 2], path[i - 1]) == Some(path[i]) {
        if i > 2 {
          assert path[i - 2] == rest[i - 3] && path[i - 1] == rest[i - 2] && path[i] == rest[i - 1];
        }
      }
    }
  }

  /** Conversely, a path back to the start that fits the fuel is the walk `Walk` makes. */
  lemma {:induction false} PathWalks(m: Map, start: Point, previous: Point, current: Point, steps: nat, fuel: nat, path: seq<Point>)
    requires WalkPath(m, start, previous, current, path) && |path| - 2 <= fuel
    ensures Walk(m, start, previous, current, steps, fuel) == Closed(steps + |path| - 2)
    decreases |path|
  {
    if current != start {
      assert |path| > 2;
      var rest := path[1..];
      assert Next(m, path[0], path[1]) == Some(path[2]);
      forall i | 2 <= i < |rest| ensures Next(m, rest[i - 2], rest[i - 1]) == Some(rest[i]) {
        assert Next(m, path[i - 1], path[i]) == Some(path[i + 1]);
      }
      PathWalks(m, start, current, path[2], steps + 1, fuel - 1, rest);
    }
  }

  /** Once a walk ends within the fuel, more fuel does not change how. */
  lemma {:induction false} WalkFuel(m: Map, start: Point, previous: Point, current: Point, steps: nat, fuel: nat, more: nat)
    requires Walk(m, start, previous, current, steps, fuel) != Exhausted
    requires fuel <= more
    ensures Walk(m, start, previous, current, steps, more) == Walk(m, start, previous, current, steps, fuel)
    decreases fuel
  {
    if current != start && Next(m, previous, current).Some? {
      WalkFuel(m, start, current, Next(m, previous, current).value, steps + 1, fuel - 1, more - 1);
    }
  }

  // ---------------------------------------------------------------------
  // The start and the longest loop
  // ---------------------------------------------------------------------

  /** `Map::start`: some point holding the start tile; which one, if several, is not determined. */
  method FindStart(m: Map) returns (s: Point)
    requires exists p :: p in m.pipes && m.pipes[p] == Start
    ensures s in m.pipes && m.pipes[s] == Start
  {
    s :| s in m.pipes && m.pipes[s] == Start;
  }

  /** The lengths of the walks from `s` through each of `ps` that come back, in order. */
  function Options(m: Map, s: Point, ps: seq<Point>, fuel: nat): (r: seq<nat>)
    ensures forall x :: x in r <==> exists k :: 0 <= k < |ps| && Walk(m, s, s, ps[k], 1, fuel) == Closed(x)
  {
    if ps == [] then []
    else
      var front := Options(m, s, ps[..|ps| - 1], fuel);
      assert forall k :: 0 <= k < |ps| - 1 ==> ps[..|ps| - 1][k] == ps[k];
      match Walk(m, s, s, ps[|ps| - 1], 1, fuel)
      case Closed(x) => front + [x]
      case _ => front
  }

  /** Every walk out of the start finishes within the fuel. */
  predicate Settled(m: Map, s: Point, fuel: nat)
  {
    forall k :: 0 <= k < 4 ==> Walk(m, s, s, Points(Start, s)[k], 1, fuel) != Exhausted
  }

  /**
   * `Map::loop_from_start` from the start point `s`: the longest of the walks
   * through its four neighbours that come back; `None` where the source panics
   * because none does.
   */
  method LoopFromStart(m: Map, s: Point, fuel: nat) returns (r: Option<nat>)
    requires Settled(m, s, fuel)
    ensures r.None? <==> Options(m, s, Points(Start, s), fuel) == []
    ensures r.Some? ==> r.value in Options(m, s, Points(Start, s), fuel)
    ensures r.Some? ==> forall x :: x in Options(m, s, Points(Start, s), fuel) ==> x <= r.value
  {
    var points := Points(Start, s);
    var options: seq<nat> := [];
    for k := 0 to |points|
      invariant options == Options(m, s, points[..k], fuel)
    {
      var longest := Longest(m, s, points[k], fuel);
      assert points[..k + 1][..k] == points[..k];
      if longest.Closed? {
        options := options + [longest.steps];
      }
    }
    assert points[..|points|] == points;
    if |options| == 0 {
      return None;
    }
    var best := Largest(options);
    return Some(best);
  }

  /** `Iterator::max` of a non-empty vector. */
  method Largest(xs: seq<nat>) returns (best: nat)
    requires xs != []
    ensures best in xs && forall x :: x in xs ==> x <= best
  {
    best := xs[0];
    for k := 1 to |xs|
      invariant best in xs && forall j :: 0 <= j < k ==> xs[j] <= best
    {
      if xs[k] > best {
        best := xs[k];
      }
    }
  }
}
