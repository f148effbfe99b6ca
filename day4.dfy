/**
 * Day 4: scratchcards. A card scores by how many of its numbers are winning
 * numbers; in the second part every card wins copies of the cards that
 * follow it, and the copies are counted off a queue until it drains.
 */
module Day4 {
  import opened Wrappers
  import opened Strings

  /** `Card`: its number, the winning numbers and the numbers held, as sets. */
  datatype Card = Card(number: nat, winning: set<nat>, have: set<nat>)

  /** The two `Err` results of `Card::from_str`, with the count found. */
  datatype ParseError = SectionCount(n: nat) | ListCount(n: nat)

  // ---------------------------------------------------------------------
  // Scoring
  // ---------------------------------------------------------------------

  /** `Card::wins`: how many held numbers are winning numbers. */
  function Wins(c: Card): nat
  {
    |c.winning * c.have|
  }

  function Pow2(n: nat): (r: nat)
    ensures r >= 1
  {
    if n == 0 then 1 else 2 * Pow2(n - 1)
  }

  /** The score of `count` matches: nothing for none, one point for the first, doubled for each further one. */
  function Score(count: nat): nat
  {
    if count == 0 then 0 else Pow2(count - 1)
  }

  /** `Card::points`. */
  function Points(c: Card): nat
  {
    Score(Wins(c))
  }

  /** No match scores nothing, one match scores one, and each further match doubles the score. */
  lemma ScoreSteps(n: nat)
    ensures Score(0) == 0 && Score(1) == 1
    ensures n >= 1 ==> Score(n + 1) == 2 * Score(n)
  {
  }

  /** More matches never score less. */
  lemma {:induction false} ScoreMonotone(a: nat, b: nat)
    requires a <= b
    ensures Score(a) <= Score(b)
    decreases b - a
  {
    if a < b {
      ScoreMonotone(a, b - 1);
      if b - 1 >= 1 {
        ScoreSteps(b - 1);
      }
    }
  }

  /** A card scores exactly when it holds some winning number. */
  lemma PointsZero(c: Card)
    ensures Points(c) == 0 <==> c.winning * c.have == {}
  {
  }

  /** A new number made both winning and held adds one match: the score goes from 0 to 1, or doubles. */
  lemma PointsOneMore(c: Card, x: nat)
    requires x !in c.winning * c.have
    ensures var d := Card(c.number, c.winning + {x}, c.have + {x});
      Wins(d) == Wins(c) + 1 && Points(d) == if Points(c) == 0 then 1 else 2 * Points(c)
  {
    var d := Card(c.number, c.winning + {x}, c.have + {x});
    assert d.winning * d.have == c.winning * c.have + {x};
    ScoreSteps(Wins(c));
  }

  // ---------------------------------------------------------------------
  // Reading a card
  // ---------------------------------------------------------------------

  /** What `str::parse::<u32>` accepts here: every word is decimal and below 2^32. */
  predicate U32List(s: string)
  {
    NumberList(s) && forall k :: 0 <= k < |Numbers(s)| ==> Numbers(s)[k] < 0x1_0000_0000
  }

  function Last(parts: seq<string>): string
    requires |parts| > 0
  {
    parts[|parts| - 1]
  }

  /**
   * What `Card::from_str` demands so that none of its `unwrap`s panics: the
   * header's last space-separated token is decimal, and both lists hold u32s.
   */
  predicate Parsable(line: string)
  {
    var sections := Split(line, ":");
    |sections| == 2 ==>
      IsDecimal(Last(Split(sections[0], " "))) &&
      var lists := Split(sections[1], "|");
      |lists| == 2 ==> U32List(lists[0]) && U32List(lists[1])
  }

  function Elements(ns: seq<nat>): set<nat>
  {
    set k | 0 <= k < |ns| :: ns[k]
  }

  /** `Card::from_str`. */
  function ParseCard(line: string): (r: Result<Card, ParseError>)
    requires Parsable(line)
    ensures r.Err? <==> |Split(line, ":")| != 2 || |Split(Split(line, ":")[1], "|")| != 2
    ensures r.Err? && |Split(line, ":")| != 2 ==> r.error == SectionCount(|Split(line, ":")|)
    ensures r.Err? && |Split(line, ":")| == 2 ==> r.error == ListCount(|Split(Split(line, ":")[1], "|")|)
    ensures r.Ok? ==> r.value.number == ParseNat(Last(Split(Split(line, ":")[0], " ")))
    ensures r.Ok? ==> forall x :: x in r.value.winning <==> x in Numbers(Split(Split(line, ":")[1], "|")[0])
    ensures r.Ok? ==> forall x :: x in r.value.have <==> x in Numbers(Split(Split(line, ":")[1], "|")[1])
  {
    var sections := Split(line, ":");
    if |sections| != 2 then Err(SectionCount(|sections|))
    else
      var number := ParseNat(Last(Split(sections[0], " ")));
      var lists := Split(sections[1], "|");
      if |lists| != 2 then Err(ListCount(|lists|))
      else Ok(Card(number, Elements(Numbers(lists[0])), Elements(Numbers(lists[1]))))
  }

  /**
   * A card as the puzzle writes it, in aligned columns: the card number and
   * every list entry after its own run of spaces, as in
   * `Card   1: 41 48 83 | 83 86  6`. Pads of zero give single spacing.
   */
  function Format(number: nat, pad: nat, winning: seq<nat>, wpads: seq<nat>, have: seq<nat>, hpads: seq<nat>): string
    requires |wpads| == |winning| && |hpads| == |have|
  {
    "Card " + Spaces(pad) + Show(number) + ":" + Lists(winning, wpads, have, hpads)
  }

  /** The text after the colon: the two padded lists, separated by ` | `. */
  function Lists(winning: seq<nat>, wpads: seq<nat>, have: seq<nat>, hpads: seq<nat>): string
    requires |wpads| == |winning| && |hpads| == |have|
  {
    " " + Join(ShowPadded(winning, wpads), " ") + " | " + Join(ShowPadded(have, hpads), " ")
  }

  predicate AllU32(ns: seq<nat>)
  {
    forall k :: 0 <= k < |ns| ==> ns[k] < 0x1_0000_0000
  }

  /** Reading a written card, however its columns are padded, gives back its number and its two lists as sets; duplicates collapse. */
  lemma ParseFormat(number: nat, pad: nat, winning: seq<nat>, wpads: seq<nat>, have: seq<nat>, hpads: seq<nat>)
    requires |wpads| == |winning| && |hpads| == |have|
    requires AllU32(winning) && AllU32(have)
    ensures Parsable(Format(number, pad, winning, wpads, have, hpads))
    ensures ParseCard(Format(number, pad, winning, wpads, have, hpads)) == Ok(Card(number, Elements(winning), Elements(have)))
  {
    var n := Show(number);
    var w, h := Join(ShowPadded(winning, wpads), " "), Join(ShowPadded(have, hpads), " ");
    var header, body := "Card " + Spaces(pad) + n, Lists(winning, wpads, have, hpads);
    var line := Format(number, pad, winning, wpads, have, hpads);
    assert Split(line, ":") == [header, body] by {
      LineSplit(number, pad, winning, wpads, have, hpads);
    }
    assert Last(Split(header, " ")) == n by {
      HeaderSplit(pad, n);
    }
    assert Split(body, "|") == [" " + w + " ", " " + h] &&
      NumberList(" " + w + " ") && Numbers(" " + w + " ") == winning &&
      NumberList(" " + h) && Numbers(" " + h) == have by {
      BodySplit(winning, wpads, have, hpads);
    }
    ParseParts(line, header, body, n, " " + w + " ", " " + h, winning, have);
  }

  /** A line whose pieces read as a number and two lists of u32s parses as that card. */
  lemma ParseParts(line: string, header: string, body: string, n: string, ws: string, hs: string, winning: seq<nat>, have: seq<nat>)
    requires Split(line, ":") == [header, body] && Last(Split(header, " ")) == n && IsDecimal(n)
    requires Split(body, "|") == [ws, hs]
    requires NumberList(ws) && Numbers(ws) == winning && AllU32(winning)
    requires NumberList(hs) && Numbers(hs) == have && AllU32(have)
    ensures Parsable(line) && ParseCard(line) == Ok(Card(ParseNat(n), Elements(winning), Elements(have)))
  {
  }

  /** A written card splits on `:` into its header and its lists. */
  lemma LineSplit(number: nat, pad: nat, winning: seq<nat>, wpads: seq<nat>, have: seq<nat>, hpads: seq<nat>)
    requires |wpads| == |winning| && |hpads| == |have|
    ensures Split(Format(number, pad, winning, wpads, have, hpads), ":") ==
      ["Card " + Spaces(pad) + Show(number), Lists(winning, wpads, have, hpads)]
  {
    var header, body := "Card " + Spaces(pad) + Show(number), Lists(winning, wpads, have, hpads);
    assert ':' !in header by {
      assert IsDecimal(Show(number));
    }
    assert ':' !in body by {
      PaddedAvoids(winning, wpads, ':');
      PaddedAvoids(have, hpads, ':');
    }
    ColonSplit(header, body);
  }

  /** A header and a body free of `:` split on `:` into the two. */
  lemma ColonSplit(header: string, body: string)
    requires ':' !in header && ':' !in body
    ensures Split(header + ":" + body, ":") == [header, body]
  {
    SplitAtFirst(header, ":", body);
    NoCharNoOccurrence(body, ":", 0);
  }

  /** The last space-separated word of `Card <spaces>n` is `n`. */
  lemma HeaderSplit(pad: nat, n: string)
    requires IsDecimal(n)
    ensures Last(Split("Card " + Spaces(pad) + n, " ")) == n
  {
    var x := "Card " + Spaces(pad);
    assert x[|x| - 1] == ' ';
    assert ' ' !in n by {
      assert forall k :: 0 <= k < |n| ==> IsDigit(n[k]);
    }
    LastAfterSpace(x, n);
  }

  /** The text after the colon splits on `|` into the two lists, which read back as the numbers written. */
  lemma BodySplit(winning: seq<nat>, wpads: seq<nat>, have: seq<nat>, hpads: seq<nat>)
    requires |wpads| == |winning| && |hpads| == |have|
    ensures var w, h := Join(ShowPadded(winning, wpads), " "), Join(ShowPadded(have, hpads), " ");
      Split(" " + w + " | " + h, "|") == [" " + w + " ", " " + h] &&
      NumberList(" " + w + " ") && Numbers(" " + w + " ") == winning &&
      NumberList(" " + h) && Numbers(" " + h) == have
  {
    var w, h := Join(ShowPadded(winning, wpads), " "), Join(ShowPadded(have, hpads), " ");
    BarSplit(winning, wpads, have, hpads);
    PaddedRoundTrip(winning, wpads);
    SpacedWords(w);
    SameWordsSameNumbers(" " + w + " ", w);
    PaddedRoundTrip(have, hpads);
    WordsPadded(h);
    SameWordsSameNumbers(" " + h, h);
  }

  lemma BarSplit(winning: seq<nat>, wpads: seq<nat>, have: seq<nat>, hpads: seq<nat>)
    requires |wpads| == |winning| && |hpads| == |have|
    ensures var w, h := Join(ShowPadded(winning, wpads), " "), Join(ShowPadded(have, hpads), " ");
      Split(" " + w + " | " + h, "|") == [" " + w + " ", " " + h]
  {
    var w, h := Join(ShowPadded(winning, wpads), " "), Join(ShowPadded(have, hpads), " ");
    PaddedAvoids(winning, wpads, '|');
    PaddedAvoids(have, hpads, '|');
    assert " " + w + " | " + h == (" " + w + " ") + "|" + (" " + h);
    SplitAtFirst(" " + w + " ", "|", " " + h);
    NoCharNoOccurrence(" " + h, "|", 0);
  }

  // ---------------------------------------------------------------------
  // Counting scratchcards
  // ---------------------------------------------------------------------

  /** Every card's copies are cards of the list, so `cards[i]` never panics. */
  predicate InRange(cards: seq<Card>)
  {
    forall k :: 0 <= k < |cards| ==> cards[k].number + Wins(cards[k]) <= |cards|
  }

  /** Every card wins copies only of cards after it, as with cards numbered 1 to N in order; then the queue drains. */
  predicate Ascending(cards: seq<Card>)
  {
    forall k :: 0 <= k < |cards| ==> k < cards[k].number
  }

  predicate Valid(cards: seq<Card>)
  {
    InRange(cards) && Ascending(cards)
  }

  /** How many cards one copy of `cards[i]` amounts to: itself and, recursively, the copies it wins. */
  function Copies(cards: seq<Card>, i: nat): (n: nat)
    requires Valid(cards) && i < |cards|
    ensures n >= 1
    decreases |cards| - i, 0
  {
    1 + CopiesFrom(cards, cards[i].number, cards[i].number + Wins(cards[i]))
  }

  function CopiesFrom(cards: seq<Card>, a: nat, b: nat): nat
    requires Valid(cards) && a <= b <= |cards|
    decreases |cards| - a, 1, b - a
  {
    if a == b then 0 else Copies(cards, a) + CopiesFrom(cards, a + 1, b)
  }

  /** The cards a queue of card indices amounts to. */
  function Tally(cards: seq<Card>, queue: seq<nat>): (n: nat)
    requires Valid(cards) && forall k :: 0 <= k < |queue| ==> queue[k] < |cards|
    ensures n >= |queue|
  {
    if |queue| == 0 then 0 else Copies(cards, queue[0]) + Tally(cards, queue[1..])
  }

  function Range(a: nat, b: nat): (r: seq<nat>)
    requires a <= b
    ensures |r| == b - a && forall k :: 0 <= k < b - a ==> r[k] == a + k
  {
    seq(b - a, k requires 0 <= k < b - a => a + k)
  }

  /** The size of the scratchcard pile: every original card with all the copies it wins. */
  function Total(cards: seq<Card>): nat
    requires Valid(cards)
  {
    Tally(cards, Range(0, |cards|))
  }

  lemma {:induction false} TallyConcat(cards: seq<Card>, x: seq<nat>, y: seq<nat>)
    requires Valid(cards)
    requires forall k :: 0 <= k < |x| ==> x[k] < |cards|
    requires forall k :: 0 <= k < |y| ==> y[k] < |cards|
    ensures Tally(cards, x + y) == Tally(cards, x) + Tally(cards, y)
    decreases |x|
  {
    if |x| == 0 {
      assert x + y == y;
    } else {
      assert (x + y)[1..] == x[1..] + y;
      TallyConcat(cards, x[1..], y);
    }
  }

  lemma {:induction false} TallyRange(cards: seq<Card>, a: nat, b: nat)
    requires Valid(cards) && a <= b <= |cards|
    ensures Tally(cards, Range(a, b)) == CopiesFrom(cards, a, b)
    decreases b - a
  {
    if a < b {
      assert Range(a, b)[1..] == Range(a + 1, b);
      TallyRange(cards, a + 1, b);
    }
  }

  /** The pile holds at least the original cards. */
  lemma TotalAtLeast(cards: seq<Card>)
    requires Valid(cards)
    ensures Total(cards) >= |cards|
  {
  }

  /** The last card can win nothing, so it stays a single card. */
  lemma LastCardAlone(cards: seq<Card>)
    requires Valid(cards) && |cards| > 0
    ensures Wins(cards[|cards| - 1]) == 0 && Copies(cards, |cards| - 1) == 1
  {
  }

  /** One dequeued card: counted once, its copies queued; the tally of what is left drops by exactly one. */
  lemma TallyPop(cards: seq<Card>, queue: seq<nat>)
    requires Valid(cards) && |queue| > 0 && forall k :: 0 <= k < |queue| ==> queue[k] < |cards|
    ensures Tally(cards, queue[1..] + Won(cards, queue[0])) + 1 == Tally(cards, queue)
  {
    var i := queue[0];
    var rest := queue[1..];
    CopiesUnfold(cards, i);
    TallyUnfold(cards, queue);
    TallyConcat(cards, rest, Won(cards, i));
    TallyWon(cards, i);
  }

  lemma TallyWon(cards: seq<Card>, i: nat)
    requires Valid(cards) && i < |cards|
    ensures Tally(cards, Won(cards, i)) == CopiesFrom(cards, cards[i].number, cards[i].number + Wins(cards[i]))
  {
    TallyRange(cards, cards[i].number, cards[i].number + Wins(cards[i]));
  }

  /** The indices of the cards that a copy of `cards[i]` wins. */
  function Won(cards: seq<Card>, i: nat): (won: seq<nat>)
    requires InRange(cards) && i < |cards|
    ensures forall k :: 0 <= k < |won| ==> won[k] < |cards|
  {
    Range(cards[i].number, cards[i].number + Wins(cards[i]))
  }

  lemma TallyUnfold(cards: seq<Card>, queue: seq<nat>)
    requires Valid(cards) && |queue| > 0 && forall k :: 0 <= k < |queue| ==> queue[k] < |cards|
    ensures Tally(cards, queue) == Copies(cards, queue[0]) + Tally(cards, queue[1..])
  {
  }

  lemma CopiesUnfold(cards: seq<Card>, i: nat)
    requires Valid(cards) && i < |cards|
    ensures Copies(cards, i) == 1 + CopiesFrom(cards, cards[i].number, cards[i].number + Wins(cards[i]))
  {
  }

  /**
   * The copy queue of the second part: dequeue a card, count it, and queue
   * copies of the `wins` cards from index `number` on, until the queue drains.
   * The queue holds card indices, standing for the cloned cards.
   */
  method Scratchcards(cards: seq<Card>) returns (count: nat)
    requires Valid(cards)
    ensures count == Total(cards) && count >= |cards|
  {
    count := 0;
    var remaining: seq<nat> := Range(0, |cards|);
    while |remaining| > 0
      invariant forall k :: 0 <= k < |remaining| ==> remaining[k] < |cards|
      invariant count + Tally(cards, remaining) == Total(cards)
      decreases Tally(cards, remaining)
    {
      var card := cards[remaining[0]];
      TallyPop(cards, remaining);
      assert Won(cards, remaining[0]) == Range(card.number, card.number + Wins(card));
      remaining := QueueCopies(remaining[1..], card.number, card.number + Wins(card));
      count := count + 1;
    }
  }

  /** The inner `for` loop: one copy of each card from index `lo` up to `hi`, queued at the back. */
  method QueueCopies(queue: seq<nat>, lo: nat, hi: nat) returns (r: seq<nat>)
    requires lo <= hi
    ensures r == queue + Range(lo, hi)
  {
    r := queue;
    for i := lo to hi
      invariant r == queue + Range(lo, i)
    {
      assert Range(lo, i + 1) == Range(lo, i) + [i];
      r := r + [i];
    }
  }
}
