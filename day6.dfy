/**
 * Day 6: boat races. Holding the button for `i` of a race's `time`
 * milliseconds makes the boat cover `i * (time - i)` millimetres; a hold wins
 * when that beats the record `distance`. The winning holds form one
 * interval, symmetric about `time / 2`.
 */
module Day6 {
  import opened Strings

  datatype Race = Race(time: nat, distance: nat)

  // ---------------------------------------------------------------------
  // Reading the races
  // ---------------------------------------------------------------------

  /** The numbers after the first `:` of a line, as `parse` reads them; a line without `:` panics. */
  predicate Readable(line: string)
  {
    |Split(line, ":")| >= 2 && NumberList(Split(line, ":")[1])
  }

  function Values(line: string): seq<nat>
    requires Readable(line)
  {
    Numbers(Split(line, ":")[1])
  }

  /** What `parse` demands: exactly two lines, with as many times as distances. */
  predicate Parsable(lines: seq<string>)
  {
    |lines| == 2 && Readable(lines[0]) && Readable(lines[1]) && |Values(lines[0])| == |Values(lines[1])|
  }

  /** `parse`: race `i` pairs the `i`th time with the `i`th distance. */
  method Parse(lines: seq<string>) returns (races: seq<Race>)
    requires Parsable(lines)
    ensures |races| == |Values(lines[0])|
    ensures forall i :: 0 <= i < |races| ==> races[i] == Race(Values(lines[0])[i], Values(lines[1])[i])
  {
    var times, distances := Values(lines[0]), Values(lines[1]);
    races := [];
    for i := 0 to |times|
      invariant |races| == i
      invariant forall j :: 0 <= j < i ==> races[j] == Race(times[j], distances[j])
    {
      races := races + [Race(times[i], distances[i])];
    }
  }

  function Times(races: seq<Race>): (ts: seq<nat>)
    ensures |ts| == |races| && forall i :: 0 <= i < |races| ==> ts[i] == races[i].time
  {
    seq(|races|, i requires 0 <= i < |races| => races[i].time)
  }

  function Distances(races: seq<Race>): (ds: seq<nat>)
    ensures |ds| == |races| && forall i :: 0 <= i < |races| ==> ds[i] == races[i].distance
  {
    seq(|races|, i requires 0 <= i < |races| => races[i].distance)
  }

  /** A puzzle line: its title, `:`, and the numbers separated by spaces. */
  function Labelled(title: string, ns: seq<nat>): string
  {
    title + ":" + " " + Join(ShowAll(ns), " ")
  }

  /** The two lines of the puzzle input for these races. */
  function Format(races: seq<Race>): seq<string>
  {
    [Labelled("Time", Times(races)), Labelled("Distance", Distances(races))]
  }

  /** Reading written races gives them back. */
  lemma ParseFormat(races: seq<Race>)
    ensures Parsable(Format(races))
    ensures Values(Format(races)[0]) == Times(races) && Values(Format(races)[1]) == Distances(races)
  {
    LabelledLine("Time", Times(races));
    LabelledLine("Distance", Distances(races));
  }

  /** A title without `:` followed by `: ` and numbers splits into the title and the padded numbers. */
  lemma LabelledLine(title: string, ns: seq<nat>)
    requires ':' !in title
    ensures Readable(Labelled(title, ns)) && Values(Labelled(title, ns)) == ns
  {
    var w := Join(ShowAll(ns), " ");
    DecimalAvoids(ns, ':');
    assert ':' !in " " + w;
    SplitAtFirst(title, ":", " " + w);
    NoCharNoOccurrence(" " + w, ":", 0);
    assert Labelled(title, ns) == title + ":" + (" " + w);
    NumbersRoundTrip(ns);
    WordsPadded(w);
  }

  // ---------------------------------------------------------------------
  // Winning holds
  // ---------------------------------------------------------------------

  /** How far the boat goes when the button is held for `i` milliseconds (`i <= time`). */
  function Travel(r: Race, i: nat): nat
    requires i <= r.time
  {
    i * (r.time - i)
  }

  predicate Beats(r: Race, i: nat)
  {
    i < r.time && Travel(r, i) > r.distance
  }

  /** The source's loops panic unless some hold below `time` wins. */
  predicate Winnable(r: Race)
  {
    exists i :: 0 <= i < r.time && Beats(r, i)
  }

  /** `Race::min_to_beat`: the shortest winning hold. */
  method MinToBeat(r: Race) returns (m: nat)
    requires Winnable(r)
    ensures Beats(r, m) && forall i :: 0 <= i < m ==> !Beats(r, i)
  {
    for i := 0 to r.time
      invariant forall j :: 0 <= j < i ==> !Beats(r, j)
    {
      if i * (r.time - i) > r.distance {
        return i;
      }
    }
    assert false;
  }

  /** `Race::max_to_beat`: the longest winning hold, searching down from `time - 1`. */
  method MaxToBeat(r: Race) returns (m: nat)
    requires Winnable(r)
    ensures Beats(r, m) && forall i :: m < i < r.time ==> !Beats(r, i)
  {
    var i: nat := r.time;
    while i > 0
      invariant i <= r.time
      invariant forall j :: i <= j < r.time ==> !Beats(r, j)
    {
      i := i - 1;
      if i * (r.time - i) > r.distance {
        return i;
      }
    }
    assert false;
  }

  /** `Race::ways_to_beat`: the number of winning holds. */
  method WaysToBeat(r: Race) returns (n: nat)
    requires Winnable(r)
    ensures n == |Winners(r)|
  {
    var hi := MaxToBeat(r);
    var lo := MinToBeat(r);
    WinnersInterval(r, lo, hi);
    n := hi - lo + 1;
  }

  /** Holding `i` or `time - i` goes equally far. */
  lemma TravelSymmetric(r: Race, i: nat)
    requires i <= r.time
    ensures Travel(r, r.time - i) == Travel(r, i)
  {
  }

  /**
   * Between a hold `a` and its mirror `time - a`, every hold goes at least as
   * far as `a`: `i * (t - i) - a * (t - a) == (i - a) * (t - a - i)`.
   */
  lemma TravelBetween(r: Race, a: nat, i: nat)
    requires a <= i <= r.time - a
    ensures Travel(r, i) >= Travel(r, a)
  {
    var t := r.time;
    assert i * (t - i) - a * (t - a) == (i - a) * (t - a - i);
    assert (i - a) * (t - a - i) >= 0;
  }

  function Winners(r: Race): set<nat>
  {
    set i | 0 <= i < r.time && Beats(r, i)
  }

  predicate Within(i: nat, lo: nat, hi: nat)
  {
    lo <= i <= hi
  }

  function Interval(lo: nat, hi: nat): set<nat>
  {
    set i: nat | i <= hi && Within(i, lo, hi)
  }

  lemma {:induction false} IntervalSize(lo: nat, hi: nat)
    requires lo <= hi + 1
    ensures |Interval(lo, hi)| == hi + 1 - lo
    decreases hi + 1 - lo
  {
    if lo <= hi {
      IntervalSize(lo + 1, hi);
      assert Interval(lo, hi) == Interval(lo + 1, hi) + {lo};
    } else {
      assert Interval(lo, hi) == {};
    }
  }

  /**
   * The shortest winning hold is at least 1, the longest is its mirror, and
   * the winners are exactly the holds between them, `hi - lo + 1` of them.
   */
  lemma WinnersInterval(r: Race, lo: nat, hi: nat)
    requires Beats(r, lo) && forall i :: 0 <= i < lo ==> !Beats(r, i)
    requires Beats(r, hi) && forall i :: hi < i < r.time ==> !Beats(r, i)
    ensures 1 <= lo <= hi && hi == r.time - lo
    ensures Winners(r) == Interval(lo, hi) && |Winners(r)| == hi - lo + 1
  {
    var t := r.time;
    TravelSymmetric(r, lo);
    assert t - lo < t && Beats(r, t - lo);
    if hi < t - lo {
      assert false;
    }
    TravelSymmetric(r, hi);
    assert Beats(r, t - hi);
    if t - hi < lo {
      assert false;
    }
    forall i ensures i in Winners(r) <==> i in Interval(lo, hi) {
      if lo <= i <= hi {
        TravelBetween(r, lo, i);
      }
    }
    IntervalSize(lo, hi);
  }
}
