/**
 * Day 12: condition records of hot springs.
 *
 * A record is a row of springs, each operational (`.`), damaged (`#`) or
 * unknown (`?`), and the sizes of the contiguous groups of damaged springs.
 * `Combinations` lists every way of filling in the unknown springs that gives
 * exactly those groups, left to right.
 */
module Day12 {
  import opened Wrappers
  import opened Strings

  /** A spring: `Some(true)` damaged, `Some(false)` operational, `None` unknown. */
  type Spring = Option<bool>

  datatype Report = Report(broken: seq<Spring>, groups: seq<nat>)

  /** The only error `Report::from_str` returns: the number of space-separated sections. */
  datatype ParseError = SectionCount(found: nat)

  function SpringOf(c: char): Spring
    requires c in ".#?"
  {
    if c == '.' then Some(false) else if c == '#' then Some(true) else None
  }

  function SpringChar(s: Spring): char
  {
    match s
    case Some(true) => '#'
    case Some(false) => '.'
    case None => '?'
  }

  /** What `from_str` survives: with two sections, only `.#?` in the first and numbers in the second. */
  predicate Parsable(line: string)
  {
    var sections := Split(line, " ");
    |sections| == 2 ==>
      && (forall k :: 0 <= k < |sections[0]| ==> sections[0][k] in ".#?")
      && var numbers := Split(sections[1], ",");
         forall k :: 0 <= k < |numbers| ==> IsDecimal(numbers[k])
  }

  /** `Report::from_str`. */
  function ParseReport(line: string): (r: Result<Report, ParseError>)
    requires Parsable(line)
    ensures r.Err? <==> |Split(line, " ")| != 2
    ensures r.Err? ==> r.error == SectionCount(|Split(line, " ")|)
    ensures r.Ok? ==>
      var sections := Split(line, " ");
      && |r.value.broken| == |sections[0]|
      && (forall k :: 0 <= k < |sections[0]| ==> SpringChar(r.value.broken[k]) == sections[0][k])
      && var numbers := Split(sections[1], ",");
         |r.value.groups| == |numbers| && forall k :: 0 <= k < |numbers| ==> r.value.groups[k] == ParseNat(numbers[k])
  {
    var sections := Split(line, " ");
    if |sections| != 2 then Err(SectionCount(|sections|))
    else
      var numbers := Split(sections[1], ",");
      Ok(Report(
        seq(|sections[0]|, k requires 0 <= k < |sections[0]| => SpringOf(sections[0][k])),
        seq(|numbers|, k requires 0 <= k < |numbers| => ParseNat(numbers[k]))))
  }

  /** `format_solution`: one character per spring. */
  function FormatSolution(state: seq<Spring>): (r: string)
    ensures |r| == |state|
    ensures forall k :: 0 <= k < |state| ==> r[k] == SpringChar(state[k])
  {
    seq(|state|, k requires 0 <= k < |state| => SpringChar(state[k]))
  }

  /** A record written as a line: its springs, a space, the group sizes joined by commas. */
  function FormatReport(rep: Report): string
  {
    FormatSolution(rep.broken) + " " + Join(ShowAll(rep.groups), ",")
  }

  /** A written record splits into its two sections, and its second into the numbers written. */
  lemma SplitReport(rep: Report)
    requires |rep.groups| > 0
    ensures Split(FormatReport(rep), " ") == [FormatSolution(rep.broken), Join(ShowAll(rep.groups), ",")]
    ensures Split(Join(ShowAll(rep.groups), ","), ",") == ShowAll(rep.groups)
  {
    var w := FormatSolution(rep.broken);
    var parts := ShowAll(rep.groups);
    var g := Join(parts, ",");
    assert ' ' !in w;
    forall k | 0 <= k < |parts| ensures ' ' !in parts[k] && ',' !in parts[k] {
      assert IsDecimal(parts[k]);
    }
    JoinAvoids(parts, ",", ' ');
    SplitAtFirst(w, " ", g);
    NoCharNoOccurrence(g, " ", 0);
    SplitJoin([g], " ");
    assert Join([g], " ") == g;
    NoCharNoOccurrence(parts[|parts| - 1], ",", 0);
    SplitJoin(parts, ",");
  }

  /** Reading a written record gives it back, springs and group sizes alike. */
  lemma ParseFormatReport(rep: Report)
    requires |rep.groups| > 0
    ensures Parsable(FormatReport(rep)) && ParseReport(FormatReport(rep)) == Ok(rep)
  {
    var w := FormatSolution(rep.broken);
    var parts := ShowAll(rep.groups);
    SplitReport(rep);
    forall k | 0 <= k < |parts| ensures IsDecimal(parts[k]) && ParseNat(parts[k]) == rep.groups[k] {
    }
    assert seq(|w|, k requires 0 <= k < |w| => SpringOf(w[k])) == rep.broken;
    assert seq(|parts|, k requires 0 <= k < |parts| => ParseNat(parts[k])) == rep.groups;
  }

  /** Every spring is known. */
  predicate Known(state: seq<Spring>)
  {
    forall k :: 0 <= k < |state| ==> state[k].Some?
  }

  /** Formatting a fully known row and reading it back gives the row again. */
  lemma FormatSolutionInverse(state: seq<Spring>)
    requires Known(state)
    ensures var r := FormatSolution(state);
      forall k :: 0 <= k < |r| ==> r[k] in ".#" && SpringOf(r[k]) == state[k]
  {
  }

  // ---------------------------------------------------------------------
  // What an arrangement is
  // ---------------------------------------------------------------------

  /** `x` fills in `state`: same length, only `#` and `.`, and every known spring kept. */
  predicate Arrangement(x: string, state: seq<Spring>)
  {
    && |x| == |state|
    && forall k :: 0 <= k < |x| ==>
         && (x[k] == '#' || x[k] == '.')
         && (state[k].Some? ==> x[k] == SpringChar(state[k]))
  }

  /**
   * How `combinations` reads the springs of `x` from `i` on, with a group of
   * `group` damaged springs in progress and the group sizes `remaining` still
   * to find: a damaged spring extends the group, an operational one closes it
   * (its size must be the next one wanted), and at the end the group in
   * progress must be the last one wanted, or there be none of either.
   */
  predicate Fits(x: string, i: nat, group: nat, remaining: seq<nat>)
    requires i <= |x|
    decreases |x| - i
  {
    if i == |x| then (remaining == [] && group == 0) || remaining == [group]
    else if x[i] == '#' then Fits(x, i + 1, group + 1, remaining)
    else if group > 0 then remaining != [] && remaining[0] == group && Fits(x, i + 1, 0, remaining[1..])
    else Fits(x, i + 1, 0, remaining)
  }

  /** The number of leading damaged springs. */
  function Lead(x: string): (n: nat)
    ensures n <= |x|
  {
    if x == [] || x[0] != '#' then 0 else 1 + Lead(x[1..])
  }

  /** The sizes of the maximal runs of damaged springs, left to right. */
  function Runs(x: string): seq<nat>
    decreases |x|
  {
    if x == [] then []
    else if x[0] != '#' then Runs(x[1..])
    else var n := Lead(x); [n] + Runs(x[n..])
  }

  function Hashes(n: nat): (r: string)
    ensures |r| == n && forall k :: 0 <= k < n ==> r[k] == '#'
  {
    if n == 0 then [] else ['#'] + Hashes(n - 1)
  }

  predicate Positive(groups: seq<nat>)
  {
    forall k :: 0 <= k < |groups| ==> groups[k] > 0
  }

  lemma {:induction false} LeadHashes(n: nat, y: string)
    requires y == [] || y[0] != '#'
    ensures Lead(Hashes(n) + y) == n
    decreases n
  {
    if n > 0 {
      assert (Hashes(n) + y)[1..] == Hashes(n - 1) + y;
      LeadHashes(n - 1, y);
    } else {
      assert Hashes(n) + y == y;
    }
  }

  /** Runs of a row that starts with `n` damaged springs followed by an operational one or nothing. */
  lemma RunsAfterHashes(n: nat, y: string)
    requires n > 0 && (y == [] || y[0] != '#')
    ensures Runs(Hashes(n) + y) == [n] + Runs(y)
  {
    LeadHashes(n, y);
    var z := Hashes(n) + y;
    assert z[0] == '#';
    assert z[n..] == y;
  }

  /**
   * For positive group sizes, the reading `combinations` does accepts
   * exactly the rows whose maximal damaged runs are the wanted sizes
   * (continuing the `group` already in progress).
   */
  lemma {:induction false} FitsIsRuns(x: string, i: nat, group: nat, remaining: seq<nat>)
    requires i <= |x| && Positive(remaining)
    ensures Fits(x, i, group, remaining) <==> Runs(Hashes(group) + x[i..]) == remaining
    decreases |x| - i
  {
    var y := x[i..];
    if i == |x| {
      assert y == [];
      if group > 0 {
        RunsAfterHashes(group, y);
      } else {
        assert Hashes(group) + y == [];
        if |remaining| == 1 {
          assert remaining[0] > 0;
        }
      }
    } else if x[i] == '#' {
      FitsIsRuns(x, i + 1, group + 1, remaining);
      assert Hashes(group) + y == Hashes(group + 1) + x[i + 1..] by {
        assert Hashes(group + 1) == Hashes(group) + ['#'] by { HashesSnoc(group); }
        assert y == ['#'] + x[i + 1..];
      }
    } else if group > 0 {
      if remaining != [] {
        FitsIsRuns(x, i + 1, 0, remaining[1..]);
      }
      RunsAfterHashes(group, y);
      assert Hashes(0) + x[i + 1..] == x[i + 1..];
      assert Runs(y) == Runs(x[i + 1..]) by { assert y[1..] == x[i + 1..]; }
      assert remaining != [] ==> remaining == [remaining[0]] + remaining[1..];
    } else {
      FitsIsRuns(x, i + 1, 0, remaining);
      assert Hashes(group) + y == y;
      assert Hashes(0) + x[i + 1..] == x[i + 1..];
      assert y[0] == x[i] && y[1..] == x[i + 1..];
      assert Runs(y) == Runs(x[i + 1..]);
    }
  }

  lemma {:induction false} HashesSnoc(n: nat)
    ensures Hashes(n + 1) == Hashes(n) + ['#']
  {
  }

  /** With no group sizes left, a row fits iff no group is in progress and no damaged spring follows. */
  lemma {:induction false} FitsNoneLeft(x: string, i: nat, group: nat)
    requires i <= |x|
    ensures Fits(x, i, group, []) <==> group == 0 && forall k :: i <= k < |x| ==> x[k] != '#'
    decreases |x| - i
  {
    if i < |x| {
      FitsNoneLeft(x, i + 1, if x[i] == '#' then group + 1 else 0);
    }
  }

  /** A group in progress that is already larger than the next wanted size never fits. */
  lemma {:induction false} FitsTooBig(x: string, i: nat, group: nat, remaining: seq<nat>)
    requires i <= |x| && remaining != [] && group > remaining[0]
    ensures !Fits(x, i, group, remaining)
    decreases |x| - i
  {
    if i < |x| && x[i] == '#' {
      FitsTooBig(x, i + 1, group + 1, remaining);
    }
  }

  predicate Distinct(r: seq<string>)
  {
    forall a, b :: 0 <= a < b < |r| ==> r[a] != r[b]
  }

  function Unknowns(state: seq<Spring>): (n: nat)
    ensures n <= |state|
  {
    if state == [] then 0 else (if state[0].None? then 1 else 0) + Unknowns(state[1..])
  }

  /** Filling in one unknown spring leaves one fewer unknown. */
  lemma {:induction false} UnknownsFill(state: seq<Spring>, k: nat, v: bool)
    requires k < |state| && state[k].None?
    ensures Unknowns(state[k := Some(v)]) == Unknowns(state) - 1
    decreases |state|
  {
    if k > 0 {
      assert state[k := Some(v)][1..] == state[1..][k - 1 := Some(v)];
      UnknownsFill(state[1..], k - 1, v);
    }
  }

  /** Any known damaged spring from `i` on. */
  predicate AnyDamagedFrom(state: seq<Spring>, i: nat)
  {
    exists k :: i <= k < |state| && state[k] == Some(true)
  }

  // ---------------------------------------------------------------------
  // The enumerator
  // ---------------------------------------------------------------------

  /** A fully known row has exactly one arrangement: itself. */
  lemma OnlyArrangement(state: seq<Spring>)
    requires Known(state)
    ensures Arrangement(FormatSolution(state), state)
    ensures forall x :: Arrangement(x, state) ==> x == FormatSolution(state)
  {
    var solution := FormatSolution(state);
    forall x | Arrangement(x, state) ensures x == solution {
      assert forall j :: 0 <= j < |x| ==> x[j] == solution[j];
    }
  }

  /** An arrangement of a row with an unknown spring `i` arranges the row with `i` set as it has it. */
  lemma ArrangementSplit(state: seq<Spring>, i: nat, x: string)
    requires i < |state| && state[i].None? && Arrangement(x, state)
    ensures x[i] == '#' ==> Arrangement(x, state[i := Some(true)])
    ensures x[i] != '#' ==> Arrangement(x, state[i := Some(false)])
  {
  }

  /**
   * The loop that ends `combinations` once no group is left: every unknown
   * spring from `i` on becomes operational, giving the one arrangement with
   * no damaged spring from `i` on.
   */
  method FillOperational(state: seq<Spring>, i: nat) returns (solution: string)
    requires i <= |state| && forall k :: 0 <= k < i ==> state[k].Some?
    requires !AnyDamagedFrom(state, i)
    ensures Arrangement(solution, state) && forall k :: i <= k < |solution| ==> solution[k] != '#'
    ensures forall x :: Arrangement(x, state) && (forall k :: i <= k < |x| ==> x[k] != '#') ==> x == solution
  {
    var newState := state;
    for k := i to |newState|
      invariant |newState| == |state|
      invariant forall j :: 0 <= j < |state| ==>
        newState[j] == if i <= j < k && state[j].None? then Some(false) else state[j]
    {
      if newState[k].None? {
        newState := newState[k := Some(false)];
      }
    }
    solution := FormatSolution(newState);
    forall x | Arrangement(x, state) && (forall k :: i <= k < |x| ==> x[k] != '#') ensures x == solution {
      assert forall j :: 0 <= j < |x| ==> x[j] == solution[j];
    }
  }

  /**
   * `Report::combinations`: every arrangement of `state` that fits the
   * groups from `index` on, each once. The springs before `index` are known,
   * as they are on every call the enumerator makes.
   */
  method Combinations(state: seq<Spring>, index: nat, group: nat, remaining: seq<nat>) returns (r: seq<string>)
    requires index <= |state|
    requires forall k :: 0 <= k < index ==> state[k].Some?
    ensures forall x :: x in r ==> Arrangement(x, state) && Fits(x, index, group, remaining)
    ensures forall x :: Arrangement(x, state) && Fits(x, index, group, remaining) ==> x in r
    ensures Distinct(r)
    decreases Unknowns(state)
  {
    var i, g, rem := index, group, remaining;
    while i < |state|
      invariant index <= i <= |state|
      invariant forall k :: 0 <= k < i ==> state[k].Some?
      invariant forall x :: Arrangement(x, state) ==>
        (Fits(x, index, group, remaining) <==> Fits(x, i, g, rem))
    {
      if |rem| == 0 {
        forall x | Arrangement(x, state) ensures Fits(x, i, g, rem) <==> g == 0 && forall k :: i <= k < |x| ==> x[k] != '#' {
          FitsNoneLeft(x, i, g);
        }
        if AnyDamagedFrom(state, i) {
          return [];
        } else if g > 0 {
          return [];
        } else {
          var solution := FillOperational(state, i);
          return [solution];
        }
      }
      if state[i].Some? {
        var current := state[i].value;
        if current {
          g := g + 1;
          if g > rem[0] {
            forall x | Arrangement(x, state) ensures !Fits(x, i + 1, g, rem) {
              FitsTooBig(x, i + 1, g, rem);
            }
            return [];
          }
        } else if g > 0 {
          if g != rem[0] {
            return [];
          } else {
            rem := rem[1..];
            g := 0;
          }
        }
      } else {
        var newState := state[i := Some(true)];
        UnknownsFill(state, i, true);
        var combos := Combinations(newState, i, g, rem);
        newState := state[i := Some(false)];
        UnknownsFill(state, i, false);
        var more := Combinations(newState, i, g, rem);
        forall x | Arrangement(x, state) && Fits(x, index, group, remaining) ensures x in combos + more {
          ArrangementSplit(state, i, x);
        }
        forall a, b | 0 <= a < |combos| && 0 <= b < |more| ensures combos[a] != more[b] {
          assert combos[a] in combos && more[b] in more;
        }
        return combos + more;
      }
      i := i + 1;
    }
    // All springs are known: the only arrangement is the row itself.
    var solution := FormatSolution(state);
    OnlyArrangement(state);
    if |rem| == 0 {
      if g == 0 {
        return [solution];
      } else {
        return [];
      }
    } else if g != rem[0] {
      return [];
    } else if |rem| == 1 {
      assert rem == [g];
      return [solution];
    } else {
      return [];
    }
  }

  /**
   * `Report::possible_combinations`: the distinct arrangements of the record
   * that fit its groups; for positive group sizes, exactly those whose
   * maximal damaged runs are the groups. Their number is the answer.
   */
  method PossibleCombinations(report: Report) returns (r: seq<string>)
    ensures forall x :: x in r <==> Arrangement(x, report.broken) && Fits(x, 0, 0, report.groups)
    ensures Positive(report.groups) ==>
      forall x :: x in r <==> Arrangement(x, report.broken) && Runs(x) == report.groups
    ensures Distinct(r)
  {
    r := Combinations(report.broken, 0, 0, report.groups);
    if Positive(report.groups) {
      forall x | Arrangement(x, report.broken)
        ensures Fits(x, 0, 0, report.groups) <==> Runs(x) == report.groups
      {
        FitsIsRuns(x, 0, 0, report.groups);
        assert Hashes(0) + x[0..] == x;
      }
    }
  }
}
