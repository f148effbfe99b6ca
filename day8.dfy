/**
 * Day 8: walking a network of named nodes by a cycled list of left/right
 * directions. Step `i` of every walk uses direction `i mod |directions|`;
 * the ghost walk moves every start node ending in `A` in lock step until all
 * of them end in `Z`. Both loops can run forever, so they carry fuel.
 */
module Day8 {
  import opened Wrappers

  datatype Direction = Left | Right

  datatype Node = Node(left: string, right: string)

  /** `Map`: node name to its two successors. */
  type Network = map<string, Node>

  /** How a walk ends: reached its goal after `n` steps, or stopped at step `n` on a name with no node (the source's `unwrap` panics), or ran out of fuel. */
  datatype Outcome = Reached(n: nat) | Missing(n: nat) | OutOfFuel

  // ---------------------------------------------------------------------
  // Reading the input
  // ---------------------------------------------------------------------

  /** `Direction::from`; any other character panics. */
  function DirectionOf(c: char): (d: Direction)
    requires c in "LR"
    ensures d == Left <==> c == 'L'
  {
    if c == 'L' then Left else Right
  }

  function DirectionChar(d: Direction): (c: char)
    ensures c in "LR" && DirectionOf(c) == d
  {
    if d == Left then 'L' else 'R'
  }

  /** A line `AAA = (BBB, CCC)` is long enough to slice at the fixed offsets. */
  predicate Sliceable(line: string)
  {
    |line| >= 15
  }

  function NameOf(line: string): string
    requires Sliceable(line)
  {
    line[0..3]
  }

  function NodeOf(line: string): Node
    requires Sliceable(line)
  {
    Node(line[7..10], line[12..15])
  }

  /** The line `Map::from_str` reads back into `name` and `node`. */
  function Format(name: string, node: Node): string
  {
    name + " = (" + node.left + ", " + node.right + ")"
  }

  /** With three-character names, formatting a node and slicing it back are inverse. */
  lemma FormatRoundTrip(name: string, node: Node)
    requires |name| == 3 && |node.left| == 3 && |node.right| == 3
    ensures Sliceable(Format(name, node))
    ensures NameOf(Format(name, node)) == name && NodeOf(Format(name, node)) == node
  {
    var line := Format(name, node);
    assert line[0..3] == name;
    assert line[7..10] == node.left;
    assert line[12..15] == node.right;
  }

  /** The network after inserting the lines in order; a repeated name keeps its last line. */
  function NetworkOf(lines: seq<string>): Network
    requires forall i :: 0 <= i < |lines| ==> Sliceable(lines[i])
  {
    if |lines| == 0 then map[]
    else
      var last := lines[|lines| - 1];
      NetworkOf(lines[..|lines| - 1])[NameOf(last) := NodeOf(last)]
  }

  /** Every line's name is a key and nothing else is. */
  lemma {:induction false} NetworkOfKeys(lines: seq<string>, k: string)
    requires forall i :: 0 <= i < |lines| ==> Sliceable(lines[i])
    ensures k in NetworkOf(lines) <==> exists i :: 0 <= i < |lines| && NameOf(lines[i]) == k
  {
    if |lines| > 0 {
      var init := lines[..|lines| - 1];
      NetworkOfKeys(init, k);
      if k in NetworkOf(lines) && NameOf(lines[|lines| - 1]) != k {
        var i :| 0 <= i < |init| && NameOf(init[i]) == k;
        assert lines[i] == init[i];
      }
      if exists i :: 0 <= i < |lines| && NameOf(lines[i]) == k {
        var i :| 0 <= i < |lines| && NameOf(lines[i]) == k;
        if i < |init| {
          assert NameOf(init[i]) == k;
        }
      }
    }
  }

  /** A key maps to the node of the last line with that name. */
  lemma {:induction false} NetworkOfLookup(lines: seq<string>, i: nat)
    requires forall i :: 0 <= i < |lines| ==> Sliceable(lines[i])
    requires i < |lines| && forall j :: i < j < |lines| ==> NameOf(lines[j]) != NameOf(lines[i])
    ensures NameOf(lines[i]) in NetworkOf(lines) && NetworkOf(lines)[NameOf(lines[i])] == NodeOf(lines[i])
  {
    var init := lines[..|lines| - 1];
    if i < |init| {
      assert init[i] == lines[i];
      assert forall j :: i < j < |init| ==> init[j] == lines[j];
      NetworkOfLookup(init, i);
    }
  }

  /** `Map::from_str`: one insertion per line, in order. */
  method ParseNetwork(lines: seq<string>) returns (net: Network)
    requires forall i :: 0 <= i < |lines| ==> Sliceable(lines[i])
    ensures net == NetworkOf(lines)
  {
    net := map[];
    for i := 0 to |lines|
      invariant net == NetworkOf(lines[..i])
    {
      assert lines[..i + 1][..i] == lines[..i];
      net := net[NameOf(lines[i]) := NodeOf(lines[i])];
    }
    assert lines[..|lines|] == lines;
  }

  // ---------------------------------------------------------------------
  // Walks
  // ---------------------------------------------------------------------

  /** One step from a node known to the network. */
  function Go(net: Network, current: string, d: Direction): string
    requires current in net
  {
    match d
    case Left => net[current].left
    case Right => net[current].right
  }

  /** The node reached after `i` steps from `from`; `None` once a step meets a name with no node. */
  function At(net: Network, dirs: seq<Direction>, from: string, i: nat): Option<string>
    requires |dirs| > 0
  {
    if i == 0 then Some(from)
    else match At(net, dirs, from, i - 1)
      case None => None
      case Some(x) => if x in net then Some(Go(net, x, dirs[(i - 1) % |dirs|])) else None
  }

  /** After a whole round of directions, the walk goes on exactly as a fresh walk from where it stands. */
  lemma {:induction false} AtShift(net: Network, dirs: seq<Direction>, from: string, i: nat, k: nat)
    requires |dirs| > 0 && i % |dirs| == 0 && At(net, dirs, from, i).Some?
    ensures At(net, dirs, from, i + k) == At(net, dirs, At(net, dirs, from, i).value, k)
  {
    if k > 0 {
      AtShift(net, dirs, from, i, k - 1);
      assert (i + k - 1) % |dirs| == (k - 1) % |dirs| by {
        ShiftMod(i, k - 1, |dirs|);
      }
    }
  }

  lemma {:induction false} ShiftMod(i: nat, k: nat, n: nat)
    requires n > 0 && i % n == 0
    ensures (i + k) % n == k % n
  {
    if i > 0 {
      assert i >= n;
      AddMod(i - n, n);
      ShiftMod(i - n, k, n);
      AddMod(i - n + k, n);
      assert i + k == (i - n + k) + n;
    }
  }

  lemma AddMod(m: nat, n: nat)
    requires n > 0
    ensures (m + n) % n == m % n
  {
    assert m == (m / n) * n + m % n;
    assert m + n == (m / n + 1) * n + m % n;
    ModUnique(m + n, n, m / n + 1, m % n);
  }

  lemma ModUnique(a: int, n: int, q: int, r: int)
    requires n > 0 && 0 <= r < n && a == q * n + r
    ensures a % n == r
  {
    var q2, r2 := a / n, a % n;
    assert a == q2 * n + r2;
    assert (q - q2) * n == r2 - r;
    if q > q2 {
      MulAtLeast(q - q2, n);
    } else if q < q2 {
      MulAtLeast(q2 - q, n);
    }
  }

  lemma MulAtLeast(d: int, n: int)
    requires d >= 1 && n > 0
    ensures d * n >= n
  {
  }

  /** `Map::steps` may index `directions` only when the walk has to move. */
  predicate Walkable(dirs: seq<Direction>, from: string, to: string)
  {
    from == to || |dirs| > 0
  }

  /**
   * `Map::steps`: follows the directions from `from` until `to`, up to
   * `fuel` steps. `Reached(n)` is the first step count at which the walk
   * stands on `to`.
   */
  method Steps(net: Network, from: string, to: string, dirs: seq<Direction>, fuel: nat) returns (r: Outcome)
    requires Walkable(dirs, from, to)
    ensures from == to ==> r == Reached(0)
    ensures from != to ==> |dirs| > 0 && r != Reached(0)
    ensures r.Reached? && r.n > 0 ==> r.n <= fuel && At(net, dirs, from, r.n) == Some(to)
    ensures r.Missing? ==>
              r.n < fuel && At(net, dirs, from, r.n).Some? &&
              At(net, dirs, from, r.n).value != to && At(net, dirs, from, r.n).value !in net
    ensures !r.Reached? ==> forall j :: 0 <= j <= (if r.Missing? then r.n else fuel) ==>
      At(net, dirs, from, j).Some? && At(net, dirs, from, j).value != to
    ensures r.Reached? && r.n > 0 ==> forall j :: 0 <= j < r.n ==>
      At(net, dirs, from, j).Some? && At(net, dirs, from, j).value != to
  {
    if from == to {
      return Reached(0);
    }
    var i: nat := 0;
    var current := from;
    while current != to
      invariant i <= fuel && At(net, dirs, from, i) == Some(current)
      invariant forall j :: 0 <= j < i ==> At(net, dirs, from, j).Some? && At(net, dirs, from, j).value != to
      decreases fuel - i
    {
      if i == fuel {
        return OutOfFuel;
      }
      if current !in net {
        return Missing(i);
      }
      current := Go(net, current, dirs[i % |dirs|]);
      i := i + 1;
    }
    return Reached(i);
  }

  // ---------------------------------------------------------------------
  // Ghosts
  // ---------------------------------------------------------------------

  /** Names are long enough for the source's `nth(2).unwrap()`: every key and every successor. */
  predicate WellNamed(net: Network)
  {
    forall k :: k in net ==> |k| >= 3 && |net[k].left| >= 3 && |net[k].right| >= 3
  }

  /** The ghosts' start nodes: keys whose third character is `A`. */
  function StartNames(net: Network): set<string>
    requires WellNamed(net)
  {
    set k | k in net && k[2] == 'A'
  }

  /** Every ghost ends on a node whose third character is `Z`. */
  predicate AllDone(current: seq<string>)
  {
    forall g :: 0 <= g < |current| ==> |current[g]| >= 3 && current[g][2] == 'Z'
  }

  /** Every ghost takes direction `d` at once; `None` when one of them stands on a name with no node. */
  function Moved(net: Network, current: seq<string>, d: Direction): Option<seq<string>>
  {
    if forall g :: 0 <= g < |current| ==> current[g] in net then
      Some(seq(|current|, g requires 0 <= g < |current| && current[g] in net => Go(net, current[g], d)))
    else None
  }

  /** The ghosts after `i` lock steps from `starts`, all following the same directions. */
  function Ghosts(net: Network, dirs: seq<Direction>, starts: seq<string>, i: nat): Option<seq<string>>
    requires |dirs| > 0
  {
    if i == 0 then Some(starts)
    else match Ghosts(net, dirs, starts, i - 1)
      case None => None
      case Some(current) => Moved(net, current, dirs[(i - 1) % |dirs|])
  }

  /**
   * The lock step is the single walks side by side: after `i` steps ghost
   * `g` stands where a lone walk from `starts[g]` stands, and the ghosts
   * stop exactly when one of those walks does.
   */
  lemma {:induction false} GhostsAreWalks(net: Network, dirs: seq<Direction>, starts: seq<string>, i: nat)
    requires |dirs| > 0
    ensures Ghosts(net, dirs, starts, i).Some? <==> forall g :: 0 <= g < |starts| ==> At(net, dirs, starts[g], i).Some?
    ensures Ghosts(net, dirs, starts, i).Some? ==>
      |Ghosts(net, dirs, starts, i).value| == |starts| &&
      forall g :: 0 <= g < |starts| ==> At(net, dirs, starts[g], i) == Some(Ghosts(net, dirs, starts, i).value[g])
  {
    if i > 0 {
      GhostsAreWalks(net, dirs, starts, i - 1);
      var before := Ghosts(net, dirs, starts, i - 1);
      if before.None? {
        var g :| 0 <= g < |starts| && At(net, dirs, starts[g], i - 1).None?;
        assert At(net, dirs, starts[g], i).None?;
      } else {
        var c := before.value;
        if exists g :: 0 <= g < |c| && c[g] !in net {
          var g :| 0 <= g < |c| && c[g] !in net;
          assert At(net, dirs, starts[g], i).None?;
        } else {
          forall g | 0 <= g < |starts| ensures At(net, dirs, starts[g], i) == Some(Ghosts(net, dirs, starts, i).value[g]) {
            assert At(net, dirs, starts[g], i - 1) == Some(c[g]);
          }
        }
      }
    }
  }

  /** Names reached from a well-named network keep the length the source indexes. */
  lemma {:induction false} AtLong(net: Network, dirs: seq<Direction>, from: string, i: nat)
    requires |dirs| > 0 && WellNamed(net) && |from| >= 3
    ensures At(net, dirs, from, i).Some? ==> |At(net, dirs, from, i).value| >= 3
  {
    if i > 0 {
      AtLong(net, dirs, from, i - 1);
    }
  }

  /** The ghosts still walking: some ghost's node does not end in `Z`. */
  method AnyWalking(current: seq<string>) returns (b: bool)
    requires forall g :: 0 <= g < |current| ==> |current[g]| >= 3
    ensures b <==> !AllDone(current)
  {
    for g := 0 to |current|
      invariant forall h :: 0 <= h < g ==> current[h][2] == 'Z'
    {
      if current[g][2] != 'Z' {
        return true;
      }
    }
    return false;
  }

  /** The keys of `net` ending in `A`, once each, in an arbitrary order (the source walks a `HashMap`). */
  method StartList(net: Network) returns (starts: seq<string>)
    requires WellNamed(net)
    ensures forall g, h :: 0 <= g < h < |starts| ==> starts[g] != starts[h]
    ensures forall k :: k in starts <==> k in StartNames(net)
  {
    starts := [];
    var keys := net.Keys;
    while keys != {}
      invariant keys <= net.Keys
      invariant forall g, h :: 0 <= g < h < |starts| ==> starts[g] != starts[h]
      invariant forall k :: k in starts ==> k !in keys && k in StartNames(net)
      invariant forall k :: k in StartNames(net) ==> k in starts || k in keys
      decreases keys
    {
      var k :| k in keys;
      if k[2] == 'A' {
        starts := starts + [k];
      }
      keys := keys - {k};
    }
  }

  /** One lock step: every ghost takes direction `d`, as `Moved` says. */
  method Advance(net: Network, current: seq<string>, d: Direction) returns (next: Option<seq<string>>)
    requires WellNamed(net)
    ensures next == Moved(net, current, d)
    ensures next.Some? ==> forall g :: 0 <= g < |next.value| ==> |next.value[g]| >= 3
  {
    var moved: seq<string> := [];
    for g := 0 to |current|
      invariant |moved| == g && forall h :: 0 <= h < g ==> current[h] in net && moved[h] == Go(net, current[h], d)
      invariant forall h :: 0 <= h < g ==> |moved[h]| >= 3
    {
      if current[g] !in net {
        return None;
      }
      moved := moved + [Go(net, current[g], d)];
    }
    assert forall h :: 0 <= h < |current| ==> current[h] in net;
    assert moved == Moved(net, current, d).value;
    return Some(moved);
  }

  /** After `j` steps every ghost still has a node and not all of them end in `Z`. */
  predicate Walking(net: Network, dirs: seq<Direction>, starts: seq<string>, j: nat)
    requires |dirs| > 0
  {
    Ghosts(net, dirs, starts, j).Some? && !AllDone(Ghosts(net, dirs, starts, j).value)
  }

  /** The ghosts were walking after each of the first `n` step counts. */
  predicate WalkingBelow(net: Network, dirs: seq<Direction>, starts: seq<string>, n: nat)
    requires |dirs| > 0
  {
    forall j :: 0 <= j < n ==> Walking(net, dirs, starts, j)
  }

  /**
   * What the lock-step loop ends with: the first step at which every ghost
   * stands on a `Z` node, the step before the one on which a ghost has no
   * node, or, all ghosts walking through `fuel` steps, no answer.
   */
  predicate GhostOutcome(net: Network, dirs: seq<Direction>, starts: seq<string>, fuel: nat, r: Outcome)
    requires |dirs| > 0
  {
    match r
    case Reached(n) =>
      n <= fuel && Ghosts(net, dirs, starts, n).Some? && AllDone(Ghosts(net, dirs, starts, n).value) &&
      WalkingBelow(net, dirs, starts, n)
    case Missing(n) => n < fuel && Ghosts(net, dirs, starts, n + 1).None? && WalkingBelow(net, dirs, starts, n + 1)
    case OutOfFuel => WalkingBelow(net, dirs, starts, fuel + 1)
  }

  /** Step `i` of the lock-step loop: the ghosts after `i + 1` steps, or `None` when that step panics. */
  method Tick(net: Network, dirs: seq<Direction>, starts: seq<string>, i: nat, current: seq<string>) returns (next: Option<seq<string>>)
    requires WellNamed(net) && |dirs| > 0 && Ghosts(net, dirs, starts, i) == Some(current)
    ensures next == Ghosts(net, dirs, starts, i + 1)
    ensures next.Some? ==> forall g :: 0 <= g < |next.value| ==> |next.value[g]| >= 3
  {
    next := Advance(net, current, dirs[i % |dirs|]);
  }

  /** The lock-step loop of `Map::ghost_steps`, from the given start nodes. */
  method GhostWalk(net: Network, dirs: seq<Direction>, starts: seq<string>, fuel: nat) returns (r: Outcome)
    requires WellNamed(net) && |dirs| > 0 && forall g :: 0 <= g < |starts| ==> |starts[g]| >= 3
    ensures GhostOutcome(net, dirs, starts, fuel, r)
  {
    var i: nat := 0;
    var current := starts;
    var walking := AnyWalking(current);
    while walking
      invariant i <= fuel && Ghosts(net, dirs, starts, i) == Some(current)
      invariant forall g :: 0 <= g < |current| ==> |current[g]| >= 3
      invariant walking <==> !AllDone(current)
      invariant WalkingBelow(net, dirs, starts, i)
      decreases fuel - i
    {
      assert WalkingBelow(net, dirs, starts, i + 1);
      if i == fuel {
        OutOfFuelOutcome(net, dirs, starts, fuel);
        return OutOfFuel;
      }
      var next := Tick(net, dirs, starts, i, current);
      if next.None? {
        MissingOutcome(net, dirs, starts, fuel, i);
        return Missing(i);
      }
      current := next.value;
      i := i + 1;
      walking := AnyWalking(current);
    }
    ReachedOutcome(net, dirs, starts, fuel, i, current);
    return Reached(i);
  }

  lemma ReachedOutcome(net: Network, dirs: seq<Direction>, starts: seq<string>, fuel: nat, n: nat, current: seq<string>)
    requires |dirs| > 0 && n <= fuel && Ghosts(net, dirs, starts, n) == Some(current) && AllDone(current)
    requires WalkingBelow(net, dirs, starts, n)
    ensures GhostOutcome(net, dirs, starts, fuel, Reached(n))
  {
  }

  lemma MissingOutcome(net: Network, dirs: seq<Direction>, starts: seq<string>, fuel: nat, n: nat)
    requires |dirs| > 0 && n < fuel && Ghosts(net, dirs, starts, n + 1).None?
    requires WalkingBelow(net, dirs, starts, n + 1)
    ensures GhostOutcome(net, dirs, starts, fuel, Missing(n))
  {
  }

  lemma OutOfFuelOutcome(net: Network, dirs: seq<Direction>, starts: seq<string>, fuel: nat)
    requires |dirs| > 0 && WalkingBelow(net, dirs, starts, fuel + 1)
    ensures GhostOutcome(net, dirs, starts, fuel, OutOfFuel)
  {
  }

  /** A lone walk that has reached a node whose third character is `Z`. */
  predicate Done(at: Option<string>)
  {
    at.Some? && |at.value| >= 3 && at.value[2] == 'Z'
  }

  /** The lock step seen through the set of start names: whether it goes on, and whether all are done. */
  lemma GhostsBySet(net: Network, dirs: seq<Direction>, starts: seq<string>, i: nat)
    requires |dirs| > 0
    ensures Ghosts(net, dirs, starts, i).Some? <==> forall x :: x in starts ==> At(net, dirs, x, i).Some?
    ensures Ghosts(net, dirs, starts, i).Some? ==>
      (AllDone(Ghosts(net, dirs, starts, i).value) <==> forall x :: x in starts ==> Done(At(net, dirs, x, i)))
  {
    GhostsAreWalks(net, dirs, starts, i);
  }

  /** The loop has one outcome: no two answers fit the same start list. */
  lemma OutcomeUnique(net: Network, dirs: seq<Direction>, starts: seq<string>, fuel: nat, r1: Outcome, r2: Outcome)
    requires |dirs| > 0 && GhostOutcome(net, dirs, starts, fuel, r1) && GhostOutcome(net, dirs, starts, fuel, r2)
    ensures r1 == r2
  {
    var stop1 := match r1 case Reached(n) => n case Missing(n) => n + 1 case OutOfFuel => fuel + 1;
    var stop2 := match r2 case Reached(n) => n case Missing(n) => n + 1 case OutOfFuel => fuel + 1;
    assert stop1 < stop2 ==> Walking(net, dirs, starts, stop1);
    assert stop2 < stop1 ==> Walking(net, dirs, starts, stop2);
  }

  /** Two start lists of the same names go on, and finish, at the same steps. */
  lemma SameStep(net: Network, dirs: seq<Direction>, s1: seq<string>, s2: seq<string>, j: nat)
    requires |dirs| > 0 && forall k :: k in s1 <==> k in s2
    ensures Ghosts(net, dirs, s1, j).Some? == Ghosts(net, dirs, s2, j).Some?
    ensures Ghosts(net, dirs, s1, j).Some? ==>
      AllDone(Ghosts(net, dirs, s1, j).value) == AllDone(Ghosts(net, dirs, s2, j).value)
    ensures Walking(net, dirs, s1, j) == Walking(net, dirs, s2, j)
  {
    GhostsBySet(net, dirs, s1, j);
    GhostsBySet(net, dirs, s2, j);
  }

  /** An outcome of one start list is an outcome of any list of the same names. */
  lemma SameOutcome(net: Network, dirs: seq<Direction>, s1: seq<string>, s2: seq<string>, fuel: nat, r: Outcome)
    requires |dirs| > 0 && forall k :: k in s1 <==> k in s2
    requires GhostOutcome(net, dirs, s1, fuel, r)
    ensures GhostOutcome(net, dirs, s2, fuel, r)
  {
    var stop := match r case Reached(n) => n case Missing(n) => n + 1 case OutOfFuel => fuel + 1;
    assert WalkingBelow(net, dirs, s1, stop);
    forall j | 0 <= j < stop ensures Walking(net, dirs, s2, j) {
      SameStep(net, dirs, s1, s2, j);
    }
    SameStep(net, dirs, s1, s2, stop);
  }

  /**
   * The order of the start list does not matter: two lists of the same
   * names end the same way. The source gathers them from a `HashMap`.
   */
  lemma GhostOutcomeOrderFree(net: Network, dirs: seq<Direction>, s1: seq<string>, s2: seq<string>, fuel: nat, r1: Outcome, r2: Outcome)
    requires |dirs| > 0 && forall k :: k in s1 <==> k in s2
    requires GhostOutcome(net, dirs, s1, fuel, r1) && GhostOutcome(net, dirs, s2, fuel, r2)
    ensures r1 == r2
  {
    SameOutcome(net, dirs, s1, s2, fuel, r1);
    OutcomeUnique(net, dirs, s2, fuel, r1, r2);
  }

  /**
   * `Map::ghost_steps`: moves every ghost in lock step until all stand on a
   * node ending in `Z`, up to `fuel` steps. `Reached(n)` is the first such step.
   */
  method GhostSteps(net: Network, dirs: seq<Direction>, fuel: nat) returns (r: Outcome, starts: seq<string>)
    requires WellNamed(net) && |dirs| > 0
    ensures forall k :: k in starts <==> k in StartNames(net)
    ensures forall g, h :: 0 <= g < h < |starts| ==> starts[g] != starts[h]
    ensures GhostOutcome(net, dirs, starts, fuel, r)
  {
    starts := StartList(net);
    forall g | 0 <= g < |starts| ensures |starts[g]| >= 3 {
      assert starts[g] in StartNames(net);
    }
    r := GhostWalk(net, dirs, starts, fuel);
  }
}
