/**
 * Day 5: the seed almanac. Each map is a list of ranges, each moving the
 * numbers it covers by a fixed offset; numbers no range covers map to
 * themselves. A seed's location is its number sent through seven maps in
 * turn.
 */
module Day5 {
  import opened Wrappers

  /** The numbers `start..=end` are moved by `offset`. */
  datatype Range = Range(start: nat, end: nat, offset: int)

  type NumberMap = seq<Range>

  datatype Almanac = Almanac(
    seeds: seq<nat>,
    seedToSoil: NumberMap,
    soilToFertilizer: NumberMap,
    fertilizerToWater: NumberMap,
    waterToLight: NumberMap,
    lightToTemperature: NumberMap,
    temperatureToHumidity: NumberMap,
    humidityToLocation: NumberMap)

  /** The only error `NumberMap::from_str` returns: a data line without exactly three numbers. */
  datatype ParseError = NumberCount(found: nat)

  predicate Covers(r: Range, x: nat)
  {
    r.start <= x <= r.end
  }

  /** No range moves a number below zero, as holds for every parsed map. */
  predicate NonNegative(m: NumberMap)
  {
    forall k :: 0 <= k < |m| ==> m[k].start + m[k].offset >= 0
  }

  /** The first range covering `x` moves it; without one, `x` stays. */
  function Lookup(m: NumberMap, x: nat): nat
    requires NonNegative(m)
  {
    if m == [] then x
    else if Covers(m[0], x) then x + m[0].offset
    else
      assert forall k :: 0 <= k < |m[1..]| ==> m[1..][k] == m[k + 1];
      Lookup(m[1..], x)
  }

  /** Without a covering range `x` stays. */
  lemma {:induction false} LookupMiss(m: NumberMap, x: nat)
    requires NonNegative(m) && forall k :: 0 <= k < |m| ==> !Covers(m[k], x)
    ensures Lookup(m, x) == x
  {
    if m != [] {
      assert forall k :: 0 <= k < |m[1..]| ==> m[1..][k] == m[k + 1];
      LookupMiss(m[1..], x);
    }
  }

  /** The first range covering `x` moves it by its offset. */
  lemma {:induction false} LookupFirst(m: NumberMap, x: nat, k: nat)
    requires NonNegative(m) && k < |m| && Covers(m[k], x)
    requires forall j :: 0 <= j < k ==> !Covers(m[j], x)
    ensures Lookup(m, x) == x + m[k].offset
  {
    if k > 0 {
      assert !Covers(m[0], x);
      assert forall j :: 0 <= j < |m[1..]| ==> m[1..][j] == m[j + 1];
      LookupFirst(m[1..], x, k - 1);
    }
  }

  /** `NumberMap::get`: the ranges are tried in order and the first that covers the input wins. */
  method Get(m: NumberMap, input: nat) returns (y: nat)
    requires NonNegative(m)
    ensures y == Lookup(m, input)
  {
    for k := 0 to |m|
      invariant forall j :: 0 <= j < k ==> !Covers(m[j], input)
    {
      if input >= m[k].start && input <= m[k].end {
        LookupFirst(m, input, k);
        return input + m[k].offset;
      }
    }
    LookupMiss(m, input);
    return input;
  }

  // ---------------------------------------------------------------------
  // Parsing a map
  // ---------------------------------------------------------------------

  /** A data line `dest src len` as a range: `src..=src+len-1` moved by `dest - src`. */
  function RangeOf(numbers: seq<nat>): (r: Range)
    requires |numbers| == 3 && numbers[2] > 0
    ensures r.start + r.offset == numbers[0] && r.end - r.start + 1 == numbers[2]
  {
    Range(numbers[1], numbers[1] + numbers[2] - 1, numbers[0] as int - numbers[1] as int)
  }

  /** The data line a range came from. */
  function LineOf(r: Range): seq<nat>
    requires r.start <= r.end && r.start + r.offset >= 0
  {
    [(r.start + r.offset) as nat, r.start, r.end - r.start + 1]
  }

  lemma RangeLineRoundTrip(r: Range)
    requires r.start <= r.end && r.start + r.offset >= 0
    ensures RangeOf(LineOf(r)) == r
  {
  }

  lemma LineRangeRoundTrip(numbers: seq<nat>)
    requires |numbers| == 3 && numbers[2] > 0
    ensures LineOf(RangeOf(numbers)) == numbers
  {
  }

  /** `len` must be positive wherever a three-number line is read, or `end` underflows. */
  predicate Readable(lines: seq<seq<nat>>)
  {
    forall k :: 0 <= k < |lines| && |lines[k]| == 3 ==> lines[k][2] > 0
  }

  /** The map the data lines (the header line already skipped) describe, or the first bad line's count. */
  function MapOf(lines: seq<seq<nat>>): (r: Result<NumberMap, ParseError>)
    requires Readable(lines)
    ensures r.Ok? <==> forall k :: 0 <= k < |lines| ==> |lines[k]| == 3
    ensures r.Ok? ==>
      && |r.value| == |lines| && NonNegative(r.value)
      && forall k :: 0 <= k < |lines| ==> r.value[k] == RangeOf(lines[k])
    ensures r.Err? ==>
      exists k :: 0 <= k < |lines| && |lines[k]| != 3 &&
        r.error == NumberCount(|lines[k]|) && forall j :: 0 <= j < k ==> |lines[j]| == 3
    decreases |lines|
  {
    if lines == [] then Ok([])
    else if |lines[0]| != 3 then Err(NumberCount(|lines[0]|))
    else
      match MapOf(lines[1..])
      case Err(e) =>
        assert forall k :: 1 <= k < |lines| ==> lines[1..][k - 1] == lines[k];
        Err(e)
      case Ok(rest) => Ok([RangeOf(lines[0])] + rest)
  }

  /** `NumberMap::from_str`: one range pushed per data line, stopping at the first bad line. */
  method ParseMap(lines: seq<seq<nat>>) returns (r: Result<NumberMap, ParseError>)
    requires Readable(lines)
    ensures r == MapOf(lines)
  {
    var vec: NumberMap := [];
    for k := 0 to |lines|
      invariant forall j :: 0 <= j < k ==> |lines[j]| == 3
      invariant vec == seq(k, j requires 0 <= j < k => RangeOf(lines[j]))
    {
      var numbers := lines[k];
      if |numbers| != 3 {
        return Err(NumberCount(|numbers|));
      }
      var start := numbers[1];
      var offset := numbers[0] as int - start as int;
      var end := start + numbers[2] - 1;
      vec := vec + [Range(start, end, offset)];
    }
    assert MapOf(lines).value == vec;
    return Ok(vec);
  }

  /** The `len` numbers from `src` on map to the `len` numbers from `dest` on, unless an earlier range covers them. */
  lemma LookupParsed(m: NumberMap, k: nat, numbers: seq<nat>, d: nat)
    requires NonNegative(m) && k < |m|
    requires |numbers| == 3 && numbers[2] > 0 && m[k] == RangeOf(numbers)
    requires d < numbers[2]
    requires forall j :: 0 <= j < k ==> !Covers(m[j], numbers[1] + d)
    ensures Lookup(m, numbers[1] + d) == numbers[0] + d
  {
    LookupFirst(m, numbers[1] + d, k);
  }

  // ---------------------------------------------------------------------
  // Seeds and locations
  // ---------------------------------------------------------------------

  predicate Sound(a: Almanac)
  {
    && NonNegative(a.seedToSoil) && NonNegative(a.soilToFertilizer) && NonNegative(a.fertilizerToWater)
    && NonNegative(a.waterToLight) && NonNegative(a.lightToTemperature)
    && NonNegative(a.temperatureToHumidity) && NonNegative(a.humidityToLocation)
  }

  /** A seed sent through the seven maps in turn. */
  function Location(a: Almanac, seed: nat): nat
    requires Sound(a)
  {
    var soil := Lookup(a.seedToSoil, seed);
    var fert := Lookup(a.soilToFertilizer, soil);
    var water := Lookup(a.fertilizerToWater, fert);
    var light := Lookup(a.waterToLight, water);
    var temp := Lookup(a.lightToTemperature, light);
    var hum := Lookup(a.temperatureToHumidity, temp);
    Lookup(a.humidityToLocation, hum)
  }

  /** `Almanac::locations`: one location per seed, in seed order. */
  method Locations(a: Almanac) returns (locations: seq<nat>)
    requires Sound(a)
    ensures |locations| == |a.seeds|
    ensures forall k :: 0 <= k < |a.seeds| ==> locations[k] == Location(a, a.seeds[k])
  {
    locations := [];
    for k := 0 to |a.seeds|
      invariant |locations| == k
      invariant forall j :: 0 <= j < k ==> locations[j] == Location(a, a.seeds[j])
    {
      var location := LocationOf(a, a.seeds[k]);
      locations := locations + [location];
    }
  }

  /** The body of the loop in `Almanac::locations`: one seed through the seven maps. */
  method LocationOf(a: Almanac, seed: nat) returns (location: nat)
    requires Sound(a)
    ensures location == Location(a, seed)
  {
    var soil := Get(a.seedToSoil, seed);
    var fert := Get(a.soilToFertilizer, soil);
    var water := Get(a.fertilizerToWater, fert);
    var light := Get(a.waterToLight, water);
    var temp := Get(a.lightToTemperature, light);
    var hum := Get(a.temperatureToHumidity, temp);
    location := Get(a.humidityToLocation, hum);
  }

  /** When no map has a range, every seed is its own location. */
  lemma LocationWithoutRanges(a: Almanac, seed: nat)
    requires a.seedToSoil == a.soilToFertilizer == a.fertilizerToWater == a.waterToLight == []
    requires a.lightToTemperature == a.temperatureToHumidity == a.humidityToLocation == []
    ensures Location(a, seed) == seed
  {
  }

  /** The numbers `a..b`, in order. */
  function Span(a: nat, b: nat): (r: seq<nat>)
    ensures |r| == if a <= b then b - a else 0
    ensures forall t :: 0 <= t < |r| ==> r[t] == a + t
  {
    if a < b then Span(a, b - 1) + [b - 1] else []
  }

  /** The seeds of `type2`: each `start len` pair gives `start..start+len`, pairs in order. */
  function Expanded(ranges: seq<nat>): (seeds: seq<nat>)
    requires |ranges| % 2 == 0
  {
    if ranges == [] then []
    else Span(ranges[0], ranges[0] + ranges[1]) + Expanded(ranges[2..])
  }

  /** The sum of the lengths of the pairs. */
  function TotalLength(ranges: seq<nat>): nat
    requires |ranges| % 2 == 0
  {
    if ranges == [] then 0 else ranges[1] + TotalLength(ranges[2..])
  }

  /** `x` lies in the range of the `p`-th `start len` pair. */
  predicate InPair(ranges: seq<nat>, p: nat, x: nat)
  {
    2 * p + 1 < |ranges| && ranges[2 * p] <= x < ranges[2 * p] + ranges[2 * p + 1]
  }

  lemma InPairShift(ranges: seq<nat>, p: nat, x: nat)
    requires |ranges| >= 2
    ensures InPair(ranges, p + 1, x) <==> InPair(ranges[2..], p, x)
  {
  }

  lemma SpanHas(a: nat, b: nat, x: nat)
    ensures x in Span(a, b) <==> a <= x < b
  {
    if a <= x < b {
      assert Span(a, b)[x - a] == x;
    }
  }

  /** `type2`'s seeds number the sum of the lengths, and are exactly the numbers some pair covers. */
  lemma {:induction false} ExpandedSpec(ranges: seq<nat>)
    requires |ranges| % 2 == 0
    ensures |Expanded(ranges)| == TotalLength(ranges)
    ensures forall x :: x in Expanded(ranges) <==> exists p :: InPair(ranges, p, x)
  {
    if ranges != [] {
      var rest := ranges[2..];
      ExpandedSpec(rest);
      forall x ensures x in Expanded(ranges) <==> exists p :: InPair(ranges, p, x) {
        SpanHas(ranges[0], ranges[0] + ranges[1], x);
        assert Expanded(ranges) == Span(ranges[0], ranges[0] + ranges[1]) + Expanded(rest);
        if ranges[0] <= x < ranges[0] + ranges[1] {
          assert InPair(ranges, 0, x);
        }
        if x in Expanded(rest) {
          var p': nat :| InPair(rest, p', x);
          InPairShift(ranges, p', x);
        }
        if exists p :: InPair(ranges, p, x) {
          var p: nat :| InPair(ranges, p, x);
          if p > 0 {
            InPairShift(ranges, p - 1, x);
          }
        }
      }
    }
  }

  lemma ExpandedFrom(ranges: seq<nat>, i: nat, before: seq<nat>)
    requires i + 1 < |ranges| && i % 2 == 0 && |ranges| % 2 == 0
    ensures |ranges[i + 2..]| % 2 == 0
    ensures before + Span(ranges[i], ranges[i] + ranges[i + 1]) + Expanded(ranges[i + 2..]) == before + Expanded(ranges[i..])
  {
    assert ranges[i..][2..] == ranges[i + 2..];
  }

  /** The inner loop of the expansion: pushes `a..b` onto `seeds`. */
  method PushSpan(seeds: seq<nat>, a: nat, b: nat) returns (r: seq<nat>)
    requires a <= b
    ensures r == seeds + Span(a, b)
  {
    r := seeds;
    for s := a to b
      invariant r == seeds + Span(a, s)
    {
      r := r + [s];
    }
  }

  /** The seed expansion loop of `type2`: for each pair, push `start..start+len` in order. */
  method ExpandSeeds(ranges: seq<nat>) returns (seeds: seq<nat>)
    requires |ranges| % 2 == 0
    ensures seeds == Expanded(ranges)
  {
    var i: nat := 0;
    seeds := [];
    while i < |ranges|
      invariant i <= |ranges| && i % 2 == 0 && |ranges[i..]| % 2 == 0
      invariant seeds + Expanded(ranges[i..]) == Expanded(ranges)
    {
      ghost var before := seeds;
      var start, len := ranges[i], ranges[i + 1];
      seeds := PushSpan(seeds, start, start + len);
      ExpandedFrom(ranges, i, before);
      i := i + 2;
    }
    assert ranges[i..] == [];
  }

  predicate Parses(maps: seq<seq<seq<nat>>>)
  {
    |maps| == 7 && forall k :: 0 <= k < 7 ==> Readable(maps[k]) && MapOf(maps[k]).Ok?
  }

  /** The almanac the seven map sections describe, with the given seeds. */
  function AlmanacOf(seeds: seq<nat>, maps: seq<seq<seq<nat>>>): (a: Almanac)
    requires Parses(maps)
    ensures a.seeds == seeds && Sound(a)
  {
    Almanac(seeds, MapOf(maps[0]).value, MapOf(maps[1]).value, MapOf(maps[2]).value,
      MapOf(maps[3]).value, MapOf(maps[4]).value, MapOf(maps[5]).value, MapOf(maps[6]).value)
  }

  /** `Almanac::type1`: the seed numbers are the seeds. */
  method Type1(seeds: seq<nat>, maps: seq<seq<seq<nat>>>) returns (a: Almanac)
    requires Parses(maps)
    ensures a == AlmanacOf(seeds, maps)
  {
    var m0 := ParseMap(maps[0]);
    var m1 := ParseMap(maps[1]);
    var m2 := ParseMap(maps[2]);
    var m3 := ParseMap(maps[3]);
    var m4 := ParseMap(maps[4]);
    var m5 := ParseMap(maps[5]);
    var m6 := ParseMap(maps[6]);
    a := Almanac(seeds, m0.value, m1.value, m2.value, m3.value, m4.value, m5.value, m6.value);
  }

  /** `Almanac::type2`: the seed numbers are `start len` pairs, each expanded to its range. */
  method Type2(ranges: seq<nat>, maps: seq<seq<seq<nat>>>) returns (a: Almanac)
    requires |ranges| % 2 == 0 && Parses(maps)
    ensures a == AlmanacOf(Expanded(ranges), maps)
    ensures |a.seeds| == TotalLength(ranges)
  {
    var seeds := ExpandSeeds(ranges);
    ExpandedSpec(ranges);
    a := Type1(seeds, maps);
  }
}
