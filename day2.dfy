/**
 * Day 2 (an earlier take on the scratchcards of day 4): a card is two sets of
 * numbers, read from the text after the line's last `:`, and is worth
 * `2^(n - 1)` points for `n > 0` matches. Scoring is the one of day 4.
 */
module Day2 {
  import opened Wrappers
  import opened Strings
  import Day4

  datatype Card = Card(winning: set<nat>, have: set<nat>)

  /** How many of the numbers on the card are winning numbers. */
  function Matches(c: Card): nat
  {
    |c.winning * c.have|
  }

  /** `Card::points`: no points without a match, one for the first, doubling with each further one. */
  function Points(c: Card): nat
  {
    Day4.Score(Matches(c))
  }

  /** Points fall to zero exactly when no number matches, and one match is worth one point. */
  lemma PointsZeroOne(c: Card)
    ensures Points(c) == 0 <==> c.winning * c.have == {}
    ensures Matches(c) == 1 ==> Points(c) == 1
  {
    Day4.ScoreSteps(0);
    if c.winning * c.have != {} {
      var x :| x in c.winning * c.have;
      assert {x} <= c.winning * c.have;
      assert Matches(c) >= 1;
    }
  }

  /** More matches never score fewer points; each further match doubles them. */
  lemma PointsMonotone(a: Card, b: Card)
    ensures Matches(a) <= Matches(b) ==> Points(a) <= Points(b)
    ensures Matches(a) >= 1 && Matches(b) == Matches(a) + 1 ==> Points(b) == 2 * Points(a)
  {
    if Matches(a) <= Matches(b) {
      Day4.ScoreMonotone(Matches(a), Matches(b));
    }
    Day4.ScoreSteps(Matches(a));
  }

  /** A day 2 card scores as the day 4 card with the same two sets. */
  lemma SameScoring(c: Card, number: nat)
    ensures Points(c) == Day4.Points(Day4.Card(number, c.winning, c.have))
  {
  }

  // ---------------------------------------------------------------------
  // Reading a card
  // ---------------------------------------------------------------------

  /** The text after the last `:` (the whole line when there is none). */
  function Body(line: string): string
  {
    var parts := Split(line, ":");
    parts[|parts| - 1]
  }

  /** What `Card::from_str` demands so that no `unwrap` panics: both lists hold u32s. */
  predicate Parsable(line: string)
  {
    var lists := Split(Body(line), "|");
    |lists| == 2 ==> Day4.U32List(lists[0]) && Day4.U32List(lists[1])
  }

  /**
   * `Card::from_str`: the body split on `|` must give exactly two lists, else
   * the count found is the error; each list's numbers become a set.
   */
  function ParseCard(line: string): (r: Result<Card, Day4.ParseError>)
    requires Parsable(line)
    ensures r.Err? <==> |Split(Body(line), "|")| != 2
    ensures r.Err? ==> r.error == Day4.ListCount(|Split(Body(line), "|")|)
    ensures r.Ok? ==> forall n :: (n in r.value.winning <==> n in Numbers(Split(Body(line), "|")[0]))
    ensures r.Ok? ==> forall n :: (n in r.value.have <==> n in Numbers(Split(Body(line), "|")[1]))
  {
    var lists := Split(Body(line), "|");
    if |lists| != 2 then Err(Day4.ListCount(|lists|))
    else Ok(Card(Day4.Elements(Numbers(lists[0])), Day4.Elements(Numbers(lists[1]))))
  }

  /** A card as written after any title, each number after its own run of spaces: `title: 41 48 83 | 83 86  6`. */
  function Format(title: string, winning: seq<nat>, wpads: seq<nat>, have: seq<nat>, hpads: seq<nat>): string
    requires |wpads| == |winning| && |hpads| == |have|
  {
    title + ":" + Day4.Lists(winning, wpads, have, hpads)
  }

  /** The body is what follows the last `:`, whatever the title holds. */
  lemma BodyAfterLastColon(title: string, body: string)
    requires ':' !in body
    ensures Body(title + ":" + body) == body
  {
    SplitConcat(title, ':', body);
    assert title + ":" + body == title + [':'] + body;
    NoCharNoOccurrence(body, ":", 0);
  }

  /** Reading a written card gives back its two lists as sets, for any title and any padding. */
  lemma ParseFormat(title: string, winning: seq<nat>, wpads: seq<nat>, have: seq<nat>, hpads: seq<nat>)
    requires |wpads| == |winning| && |hpads| == |have|
    requires Day4.AllU32(winning) && Day4.AllU32(have)
    ensures Parsable(Format(title, winning, wpads, have, hpads))
    ensures ParseCard(Format(title, winning, wpads, have, hpads)) == Ok(Card(Day4.Elements(winning), Day4.Elements(have)))
  {
    var w, h := Join(ShowPadded(winning, wpads), " "), Join(ShowPadded(have, hpads), " ");
    var body := Day4.Lists(winning, wpads, have, hpads);
    assert ':' !in body by {
      PaddedAvoids(winning, wpads, ':');
      PaddedAvoids(have, hpads, ':');
    }
    assert Format(title, winning, wpads, have, hpads) == title + ":" + body;
    BodyAfterLastColon(title, body);
    Day4.BodySplit(winning, wpads, have, hpads);
  }
}
