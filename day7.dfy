/**
 * Day 7: Camel Cards with jokers. A hand's type comes from how its cards
 * group, jokers joining whichever group helps most; hands are ordered by
 * type, then card by card, then by bid, and the winnings weigh each bid by
 * the hand's rank in that order.
 */
module Day7 {
  import opened Wrappers
  import opened Strings

  /** In declaration order, which is the order cards compare in: the joker is the lowest. */
  datatype Card = Joker | Two | Three | Four | Five | Six | Seven | Eight | Nine | Ten | Queen | King | Ace

  datatype HandType = HighCard | OnePair | TwoPair | ThreeOfAKind | FullHouse | FourOfAKind | FiveOfAKind

  datatype Hand = Hand(cards: seq<Card>, bid: nat)

  datatype Ordering = Less | Equal | Greater

  /** The only error `Hand::from_str` returns: the number of space-separated words. */
  datatype ParseError = WordCount(found: nat)

  const CardChars := "23456789TJQKA"

  /** The characters in card order, lowest first. */
  const RankOrder := "J23456789TQKA"

  function Rank(c: Card): (r: nat)
    ensures r < 13
  {
    match c
    case Joker => 0 case Two => 1 case Three => 2 case Four => 3 case Five => 4 case Six => 5
    case Seven => 6 case Eight => 7 case Nine => 8 case Ten => 9 case Queen => 10 case King => 11
    case Ace => 12
  }

  /** `Card::from`; any other character panics. */
  function CardOf(ch: char): Card
    requires ch in CardChars
  {
    match ch
    case '2' => Two case '3' => Three case '4' => Four case '5' => Five case '6' => Six
    case '7' => Seven case '8' => Eight case '9' => Nine case 'T' => Ten case 'J' => Joker
    case 'Q' => Queen case 'K' => King case 'A' => Ace
  }

  /** `J` is the lowest card and the others follow in the order `2`…`9`, `T`, `Q`, `K`, `A`. */
  lemma CardOrder()
    ensures forall i :: 0 <= i < |RankOrder| ==> RankOrder[i] in CardChars && Rank(CardOf(RankOrder[i])) == i
  {
  }

  /** The character a card is written as. */
  function CharOf(c: Card): char
  {
    match c
    case Two => '2' case Three => '3' case Four => '4' case Five => '5' case Six => '6'
    case Seven => '7' case Eight => '8' case Nine => '9' case Ten => 'T' case Joker => 'J'
    case Queen => 'Q' case King => 'K' case Ace => 'A'
  }

  /** Reading a card character and writing the card gives the character back. */
  lemma CharOfCardOf(ch: char)
    requires ch in CardChars
    ensures CharOf(CardOf(ch)) == ch
  {
  }

  /** Distinct characters give distinct cards. */
  lemma CardOfInjective(x: char, y: char)
    requires x in CardChars && y in CardChars && x != y
    ensures CardOf(x) != CardOf(y)
  {
    CharOfCardOf(x);
    CharOfCardOf(y);
  }

  function CompareNat(a: nat, b: nat): (o: Ordering)
    ensures o == Equal <==> a == b
    ensures o == Less <==> a < b
  {
    if a < b then Less else if a == b then Equal else Greater
  }

  function Flip(o: Ordering): Ordering
  {
    match o
    case Less => Greater
    case Equal => Equal
    case Greater => Less
  }

  // ---------------------------------------------------------------------
  // Grouping
  // ---------------------------------------------------------------------

  /** Each card of the hand mapped to how often it occurs. */
  function GroupOf(cards: seq<Card>): (g: map<Card, nat>)
    ensures forall c :: c in g <==> c in cards
    ensures forall c :: c in g ==> g[c] == multiset(cards)[c] > 0
  {
    map c | c in multiset(cards) :: multiset(cards)[c]
  }

  lemma GroupSnoc(cards: seq<Card>, c: Card)
    ensures GroupOf(cards + [c]) ==
      GroupOf(cards)[c := (if c in GroupOf(cards) then GroupOf(cards)[c] else 0) + 1]
  {
    assert multiset(cards + [c]) == multiset(cards) + multiset{c};
  }

  /** `Hand::group`: counts each card as it goes. */
  method Group(cards: seq<Card>) returns (g: map<Card, nat>)
    ensures g == GroupOf(cards)
  {
    g := map[];
    for k := 0 to |cards|
      invariant g == GroupOf(cards[..k])
    {
      var card := cards[k];
      assert cards[..k + 1] == cards[..k] + [card];
      GroupSnoc(cards[..k], card);
      if card in g {
        g := g[card := g[card] + 1];
      } else {
        g := g[card := 1];
      }
    }
    assert cards[..|cards|] == cards;
  }

  ghost function Pick(keys: set<Card>): (k: Card)
    requires keys != {}
    ensures k in keys
  {
    var k :| k in keys; k
  }

  /** The sum of a map's values. */
  ghost function SumValues(g: map<Card, nat>): nat
    decreases |g.Keys|
  {
    if g.Keys == {} then 0
    else
      var k := Pick(g.Keys);
      assert (g - {k}).Keys == g.Keys - {k};
      g[k] + SumValues(g - {k})
  }

  /** The sum does not depend on which key is taken first. */
  lemma {:induction false} SumValuesRemove(g: map<Card, nat>, k: Card)
    requires k in g
    ensures SumValues(g) == g[k] + SumValues(g - {k})
    decreases |g.Keys|
  {
    var k' := Pick(g.Keys);
    assert SumValues(g) == g[k'] + SumValues(g - {k'});
    if k' != k {
      var a, b := g - {k'}, g - {k};
      assert a.Keys == g.Keys - {k'} && b.Keys == g.Keys - {k};
      SumValuesRemove(a, k);
      SumValuesRemove(b, k');
      assert a - {k} == b - {k'};
      assert a[k] == g[k] && b[k'] == g[k'];
    }
  }

  /** The group counts add up to the number of cards. */
  lemma {:induction false} GroupSum(cards: seq<Card>)
    ensures SumValues(GroupOf(cards)) == |cards|
    decreases |cards|
  {
    if cards == [] {
      assert GroupOf(cards).Keys == {};
    } else {
      var front, c := cards[..|cards| - 1], cards[|cards| - 1];
      assert cards == front + [c];
      GroupSum(front);
      GroupSnoc(front, c);
      var g := GroupOf(front);
      var g' := GroupOf(cards);
      SumValuesRemove(g', c);
      assert g' - {c} == g - {c};
      if c in g {
        SumValuesRemove(g, c);
      } else {
        assert g - {c} == g;
      }
    }
  }

  // ---------------------------------------------------------------------
  // Hand types
  // ---------------------------------------------------------------------

  /** The distinct non-joker cards: the group keys once the joker is removed. */
  function Labels(cards: seq<Card>): set<Card>
  {
    set c | c in cards && c != Joker
  }

  function Jokers(cards: seq<Card>): nat
  {
    multiset(cards)[Joker]
  }

  /** The largest count among cards `from` onwards that are not jokers, counted in the whole hand; 0 if none. */
  function MaxFrom(cards: seq<Card>, from: nat): (m: nat)
    requires from <= |cards|
    ensures forall i :: from <= i < |cards| && cards[i] != Joker ==> multiset(cards)[cards[i]] <= m
    ensures m == 0 || exists i :: from <= i < |cards| && cards[i] != Joker && multiset(cards)[cards[i]] == m
    decreases |cards| - from
  {
    if from == |cards| then 0
    else
      var rest := MaxFrom(cards, from + 1);
      if cards[from] != Joker && multiset(cards)[cards[from]] > rest then multiset(cards)[cards[from]] else rest
  }

  /** The largest group of non-jokers (`g.values().max()` once the joker is removed), 0 if there is none. */
  function MaxGroup(cards: seq<Card>): nat
  {
    MaxFrom(cards, 0)
  }

  /** `MaxGroup` is the largest value of the group map without the joker, and `Labels` are its keys. */
  lemma ShapeFromGroup(cards: seq<Card>)
    ensures Labels(cards) == GroupOf(cards).Keys - {Joker}
    ensures forall c :: c in GroupOf(cards) && c != Joker ==> GroupOf(cards)[c] <= MaxGroup(cards)
    ensures Labels(cards) == {} <==> MaxGroup(cards) == 0
    ensures Labels(cards) != {} ==> exists c :: c in Labels(cards) && GroupOf(cards)[c] == MaxGroup(cards)
    ensures Jokers(cards) == if Joker in GroupOf(cards) then GroupOf(cards)[Joker] else 0
  {
    MaxGroupBounds(cards);
    MaxGroupAttained(cards);
  }

  lemma MaxGroupBounds(cards: seq<Card>)
    ensures forall c :: c in GroupOf(cards) && c != Joker ==> GroupOf(cards)[c] <= MaxGroup(cards)
  {
    forall c | c in GroupOf(cards) && c != Joker ensures GroupOf(cards)[c] <= MaxGroup(cards) {
      var i :| 0 <= i < |cards| && cards[i] == c;
    }
  }

  lemma MaxGroupAttained(cards: seq<Card>)
    ensures Labels(cards) == {} <==> MaxGroup(cards) == 0
    ensures Labels(cards) != {} ==> exists c :: c in Labels(cards) && GroupOf(cards)[c] == MaxGroup(cards)
  {
    assert forall i :: 0 <= i < |cards| && cards[i] != Joker ==> cards[i] in Labels(cards) && cards[i] in multiset(cards);
    if Labels(cards) != {} {
      var c :| c in Labels(cards);
      var i :| 0 <= i < |cards| && cards[i] == c;
      assert multiset(cards)[cards[i]] <= MaxGroup(cards);
    }
  }

  /** One arm of the match in `hand_type`: a pattern on (labels, largest group, jokers), `None` standing for `_`. */
  datatype Arm = Arm(labels: Option<nat>, maxGroup: Option<nat>, jokers: Option<nat>, result: HandType)

  /** The arms of `hand_type`, in the order the match tries them. */
  const Arms: seq<Arm> := [
    Arm(Some(0), None, Some(5), FiveOfAKind),
    Arm(Some(1), None, Some(0), FiveOfAKind),
    Arm(Some(1), None, Some(1), FiveOfAKind),
    Arm(Some(1), None, Some(2), FiveOfAKind),
    Arm(Some(1), None, Some(3), FiveOfAKind),
    Arm(Some(1), None, Some(4), FiveOfAKind),
    Arm(None, None, Some(4), FourOfAKind),
    Arm(Some(2), Some(4), Some(0), FourOfAKind),
    Arm(Some(2), Some(3), Some(1), FourOfAKind),
    Arm(Some(2), Some(2), Some(2), FourOfAKind),
    Arm(Some(2), Some(1), Some(3), FourOfAKind),
    Arm(Some(2), Some(3), Some(0), FullHouse),
    Arm(Some(2), Some(2), Some(1), FullHouse),
    Arm(Some(2), Some(1), Some(2), FullHouse),
    Arm(Some(3), Some(3), Some(0), ThreeOfAKind),
    Arm(Some(3), Some(2), Some(1), ThreeOfAKind),
    Arm(Some(3), Some(1), Some(2), ThreeOfAKind),
    Arm(Some(3), Some(2), Some(0), TwoPair),
    Arm(Some(3), Some(1), Some(1), TwoPair),
    Arm(Some(4), Some(2), Some(0), OnePair),
    Arm(Some(4), Some(1), Some(1), OnePair),
    Arm(Some(5), None, None, HighCard)
  ]

  predicate Accepts(pattern: Option<nat>, v: nat)
  {
    pattern.None? || pattern.value == v
  }

  predicate ArmFits(arm: Arm, labels: nat, maxGroup: nat, jokers: nat)
  {
    Accepts(arm.labels, labels) && Accepts(arm.maxGroup, maxGroup) && Accepts(arm.jokers, jokers)
  }

  /** The match from arm `k` on: the first arm that fits decides; `None` where the match panics. */
  function TypeFrom(k: nat, labels: nat, maxGroup: nat, jokers: nat): (r: Option<HandType>)
    requires k <= |Arms|
    decreases |Arms| - k
  {
    if k == |Arms| then None
    else if ArmFits(Arms[k], labels, maxGroup, jokers) then Some(Arms[k].result)
    else TypeFrom(k + 1, labels, maxGroup, jokers)
  }

  /** The first arm that fits is the one that decides. */
  lemma {:induction false} FirstFit(k: nat, a: nat, labels: nat, maxGroup: nat, jokers: nat)
    requires k <= a < |Arms| && ArmFits(Arms[a], labels, maxGroup, jokers)
    requires forall b :: k <= b < a ==> !ArmFits(Arms[b], labels, maxGroup, jokers)
    ensures TypeFrom(k, labels, maxGroup, jokers) == Some(Arms[a].result)
    decreases a - k
  {
    if k < a {
      FirstFit(k + 1, a, labels, maxGroup, jokers);
    }
  }

  /** `hand_type`'s match. */
  function TypeOf(labels: nat, maxGroup: nat, jokers: nat): Option<HandType>
  {
    TypeFrom(0, labels, maxGroup, jokers)
  }

  /** `hand_type` does not panic on these cards. */
  predicate Classified(cards: seq<Card>)
  {
    TypeOf(|Labels(cards)|, MaxGroup(cards), Jokers(cards)).Some?
  }

  /** `Hand::hand_type`: decided by the number of labels, the largest group and the jokers alone. */
  function TypeOfHand(cards: seq<Card>): HandType
    requires Classified(cards)
  {
    TypeOf(|Labels(cards)|, MaxGroup(cards), Jokers(cards)).value
  }

  /** A hand with a non-joker card holds fewer jokers than cards. */
  lemma JokersBelow(cards: seq<Card>, i: nat)
    requires i < |cards| && cards[i] != Joker
    ensures Jokers(cards) < |cards|
  {
    assert cards == cards[..i] + [cards[i]] + cards[i + 1..];
    assert multiset(cards) == multiset(cards[..i]) + multiset{cards[i]} + multiset(cards[i + 1..]);
    assert multiset(cards)[Joker] == multiset(cards[..i])[Joker] + multiset(cards[i + 1..])[Joker];
    assert |multiset(cards)| == |cards|;
    MultisetCountBound(cards[..i], Joker);
    MultisetCountBound(cards[i + 1..], Joker);
  }

  lemma MultisetCountBound(s: seq<Card>, c: Card)
    ensures multiset(s)[c] <= |s|
  {
    if s != [] {
      assert s == s[..|s| - 1] + [s[|s| - 1]];
      MultisetCountBound(s[..|s| - 1], c);
    }
  }

  /** Five jokers, or five cards with a single non-joker label, make five of a kind. */
  lemma FiveOfAKindHands(cards: seq<Card>)
    requires |cards| == 5
    requires Jokers(cards) == 5 || |Labels(cards)| == 1
    ensures Classified(cards) && TypeOfHand(cards) == FiveOfAKind
  {
    if Jokers(cards) == 5 {
      if Labels(cards) != {} {
        var c :| c in Labels(cards);
        var i :| 0 <= i < |cards| && cards[i] == c;
        JokersBelow(cards, i);
      }
      FiveJokersArm(MaxGroup(cards));
    } else {
      var c :| c in Labels(cards);
      var i :| 0 <= i < |cards| && cards[i] == c;
      JokersBelow(cards, i);
      OneLabelArm(MaxGroup(cards), Jokers(cards));
    }
  }

  /** The first arm takes five jokers and no label. */
  lemma FiveJokersArm(maxGroup: nat)
    ensures TypeOf(0, maxGroup, 5) == Some(FiveOfAKind)
  {
    FirstFit(0, 0, 0, maxGroup, 5);
  }

  /** One label with up to four jokers falls to one of the next five arms. */
  lemma OneLabelArm(maxGroup: nat, jokers: nat)
    requires jokers < 5
    ensures TypeOf(1, maxGroup, jokers) == Some(FiveOfAKind)
  {
    FirstFit(0, 1 + jokers, 1, maxGroup, jokers);
  }

  lemma {:induction false} DistinctBound(s: seq<Card>)
    ensures |set c | c in s| <= |s|
  {
    if s != [] {
      var front := s[..|s| - 1];
      DistinctBound(front);
      assert (set c | c in s) == (set c | c in front) + {s[|s| - 1]};
    }
  }

  /** Five cards with five labels hold no joker, so they make a high card. */
  lemma HighCardHands(cards: seq<Card>)
    requires |cards| == 5 && |Labels(cards)| == 5
    ensures Classified(cards) && TypeOfHand(cards) == HighCard
  {
    NoJokerBesideFiveLabels(cards);
    HighCardArm(MaxGroup(cards));
  }

  lemma NoJokerBesideFiveLabels(cards: seq<Card>)
    requires |cards| == 5 && |Labels(cards)| == 5
    ensures Jokers(cards) == 0
  {
    DistinctBound(cards);
    var all := set c | c in cards;
    assert Labels(cards) == all - {Joker};
    assert Joker !in all;
    assert Joker !in multiset(cards);
  }

  /** Only the last arm takes five labels without jokers. */
  lemma HighCardArm(maxGroup: nat)
    ensures TypeOf(5, maxGroup, 0) == Some(HighCard)
  {
    FirstFit(0, 21, 5, maxGroup, 0);
  }

  /** Two labels with a largest group of three and no jokers make a full house. */
  lemma FullHouseHands(cards: seq<Card>)
    ensures |Labels(cards)| == 2 && MaxGroup(cards) == 3 && Jokers(cards) == 0 ==>
      Classified(cards) && TypeOfHand(cards) == FullHouse
  {
    FirstFit(0, 11, 2, 3, 0);
  }

  function TypeRank(t: HandType): nat
  {
    match t
    case HighCard => 0 case OnePair => 1 case TwoPair => 2 case ThreeOfAKind => 3
    case FullHouse => 4 case FourOfAKind => 5 case FiveOfAKind => 6
  }

  // ---------------------------------------------------------------------
  // Ordering hands
  // ---------------------------------------------------------------------

  /** Cards compared left to right from position `i`; the first difference decides. */
  function CompareCards(x: seq<Card>, y: seq<Card>, i: nat): Ordering
    requires |x| == |y| && i <= |x|
    decreases |x| - i
  {
    if i == |x| then Equal
    else if x[i] != y[i] then CompareNat(Rank(x[i]), Rank(y[i]))
    else CompareCards(x, y, i + 1)
  }

  /** Hands this order compares: classified and of one length. */
  predicate Comparable(a: Hand, b: Hand)
  {
    Classified(a.cards) && Classified(b.cards) && |a.cards| == |b.cards|
  }

  /** `Hand::cmp`: by type, then card by card, then by bid. */
  function Compare(a: Hand, b: Hand): Ordering
    requires Comparable(a, b)
  {
    var t := CompareNat(TypeRank(TypeOfHand(a.cards)), TypeRank(TypeOfHand(b.cards)));
    if t != Equal then t
    else
      var c := CompareCards(a.cards, b.cards, 0);
      if c != Equal then c else CompareNat(a.bid, b.bid)
  }

  /** `Hand::partial_cmp`: compares types, then walks the cards, then compares bids. */
  method PartialCmp(a: Hand, b: Hand) returns (o: Ordering)
    requires Comparable(a, b)
    ensures o == Compare(a, b)
  {
    var typeCmp := CompareNat(TypeRank(TypeOfHand(a.cards)), TypeRank(TypeOfHand(b.cards)));
    if typeCmp != Equal {
      return typeCmp;
    }
    o := WalkCards(a.cards, b.cards);
    if o == Equal {
      o := CompareNat(a.bid, b.bid);
    }
  }

  /** The card loop of `Hand::partial_cmp`: the first pair of different cards decides. */
  method WalkCards(x: seq<Card>, y: seq<Card>) returns (o: Ordering)
    requires |x| == |y|
    ensures o == CompareCards(x, y, 0)
  {
    for i := 0 to |x|
      invariant CompareCards(x, y, 0) == CompareCards(x, y, i)
    {
      var cardCmp := CompareNat(Rank(x[i]), Rank(y[i]));
      if cardCmp != Equal {
        return cardCmp;
      }
    }
    return Equal;
  }

  lemma {:induction false} CompareCardsFlip(x: seq<Card>, y: seq<Card>, i: nat)
    requires |x| == |y| && i <= |x|
    ensures CompareCards(y, x, i) == Flip(CompareCards(x, y, i))
    decreases |x| - i
  {
    if i < |x| && x[i] == y[i] {
      CompareCardsFlip(x, y, i + 1);
    }
  }

  lemma RankInjective(c: Card, d: Card)
    ensures Rank(c) == Rank(d) <==> c == d
  {
  }

  lemma {:induction false} CompareCardsEqual(x: seq<Card>, y: seq<Card>, i: nat)
    requires |x| == |y| && i <= |x|
    ensures CompareCards(x, y, i) == Equal <==> x[i..] == y[i..]
    decreases |x| - i
  {
    if i < |x| {
      RankInjective(x[i], y[i]);
      CompareCardsEqual(x, y, i + 1);
      assert x[i..] == [x[i]] + x[i + 1..];
      assert y[i..] == [y[i]] + y[i + 1..];
    } else {
      assert x[i..] == [] == y[i..];
    }
  }

  lemma {:induction false} CompareCardsTrans(x: seq<Card>, y: seq<Card>, z: seq<Card>, i: nat)
    requires |x| == |y| == |z| && i <= |x|
    requires CompareCards(x, y, i) != Greater && CompareCards(y, z, i) != Greater
    ensures CompareCards(x, z, i) != Greater
    ensures CompareCards(x, z, i) == Equal ==> CompareCards(x, y, i) == Equal
    decreases |x| - i
  {
    if i < |x| {
      RankInjective(x[i], y[i]);
      RankInjective(y[i], z[i]);
      RankInjective(x[i], z[i]);
      if x[i] == y[i] && y[i] == z[i] {
        CompareCardsTrans(x, y, z, i + 1);
      }
    }
  }

  /** Swapping the hands flips the outcome. */
  lemma CompareFlip(a: Hand, b: Hand)
    requires Comparable(a, b)
    ensures Compare(b, a) == Flip(Compare(a, b))
  {
    CompareCardsFlip(a.cards, b.cards, 0);
  }

  /** Only a hand compares equal to itself. */
  lemma CompareEqual(a: Hand, b: Hand)
    requires Comparable(a, b)
    ensures Compare(a, b) == Equal <==> a == b
  {
    CompareCardsEqual(a.cards, b.cards, 0);
    assert a.cards[0..] == a.cards && b.cards[0..] == b.cards;
  }

  /** `a` sorts no later than `b`. */
  predicate Le(a: Hand, b: Hand)
  {
    Comparable(a, b) && Compare(a, b) != Greater
  }

  /** The order is transitive. */
  lemma CompareTrans(a: Hand, b: Hand, c: Hand)
    requires Comparable(a, b) && Comparable(b, c)
    requires Le(a, b) && Le(b, c)
    ensures Le(a, c)
  {
    var ta, tb, tc := TypeRank(TypeOfHand(a.cards)), TypeRank(TypeOfHand(b.cards)), TypeRank(TypeOfHand(c.cards));
    if ta == tb == tc {
      assert a.cards[0..] == a.cards && b.cards[0..] == b.cards && c.cards[0..] == c.cards;
      CompareCardsTrans(a.cards, b.cards, c.cards, 0);
      CompareCardsEqual(a.cards, b.cards, 0);
      CompareCardsEqual(b.cards, c.cards, 0);
      CompareCardsEqual(a.cards, c.cards, 0);
    }
  }

  /** Any two hands are ordered one way or the other. */
  lemma CompareTotal(a: Hand, b: Hand)
    requires Comparable(a, b)
    ensures Le(a, b) || Le(b, a)
  {
    CompareFlip(a, b);
  }

  // ---------------------------------------------------------------------
  // The set of hands
  // ---------------------------------------------------------------------

  /** Every hand classified and `n` cards long. */
  predicate AllComparable(hs: seq<Hand>, n: nat)
  {
    forall i :: 0 <= i < |hs| ==> Classified(hs[i].cards) && |hs[i].cards| == n
  }

  /** Each element no later than every element after it. */
  predicate SortedBy<T>(xs: seq<T>, le: (T, T) -> bool)
  {
    forall i, j :: 0 <= i < j < |xs| ==> le(xs[i], xs[j])
  }

  /** `le` orders the elements of `xs` totally and transitively. */
  predicate PreorderOn<T(==)>(xs: seq<T>, le: (T, T) -> bool)
  {
    (forall a, b :: a in xs && b in xs ==> le(a, b) || le(b, a)) &&
    (forall a, b, c :: a in xs && b in xs && c in xs && le(a, b) && le(b, c) ==> le(a, c))
  }

  /** Elements of `xs` ordered both ways are equal. */
  predicate AntisymmetricOn<T(==)>(xs: seq<T>, le: (T, T) -> bool)
  {
    forall a, b :: a in xs && b in xs && le(a, b) && le(b, a) ==> a == b
  }

  lemma PreorderOnSub<T>(xs: seq<T>, ys: seq<T>, le: (T, T) -> bool)
    requires PreorderOn(xs, le)
    requires forall a :: a in ys ==> a in xs
    ensures PreorderOn(ys, le)
  {
  }

  /** An element below every element of a sorted sequence can lead it. */
  lemma SortedCons<T>(x: T, rest: seq<T>, le: (T, T) -> bool)
    requires SortedBy(rest, le)
    requires forall k :: 0 <= k < |rest| ==> le(x, rest[k])
    ensures SortedBy([x] + rest, le)
  {
    var r := [x] + rest;
    forall i, j | 0 <= i < j < |r| ensures le(r[i], r[j]) {
      assert r[j] == rest[j - 1];
      if i > 0 {
        assert r[i] == rest[i - 1];
      }
    }
  }

  /** `h` placed before the first element it does not exceed. */
  function Insert<T(==)>(xs: seq<T>, h: T, le: (T, T) -> bool): (r: seq<T>)
    requires PreorderOn(xs + [h], le) && SortedBy(xs, le)
    ensures SortedBy(r, le)
    ensures multiset(r) == multiset(xs) + multiset{h}
  {
    if xs == [] then [h]
    else
      assert xs[0] in xs + [h] && h in xs + [h];
      if le(h, xs[0]) then
        BelowFirst(h, xs, le);
        SortedCons(h, xs, le);
        [h] + xs
      else
        assert xs == [xs[0]] + xs[1..];
        TailInside(xs, h);
        PreorderOnSub(xs + [h], xs[1..] + [h], le);
        var rest := Insert(xs[1..], h, le);
        FirstBelowRest(xs, h, le, rest);
        SortedCons(xs[0], rest, le);
        assert multiset(xs) == multiset{xs[0]} + multiset(xs[1..]);
        [xs[0]] + rest
  }

  lemma TailInside<T>(xs: seq<T>, h: T)
    requires xs != []
    ensures forall a :: a in xs[1..] + [h] ==> a in xs + [h]
  {
    assert xs + [h] == [xs[0]] + (xs[1..] + [h]);
  }

  /** An element below the first of a sorted sequence is below all of it. */
  lemma BelowFirst<T>(h: T, xs: seq<T>, le: (T, T) -> bool)
    requires xs != [] && PreorderOn(xs + [h], le) && SortedBy(xs, le) && le(h, xs[0])
    ensures forall k :: 0 <= k < |xs| ==> le(h, xs[k])
  {
    forall k | 0 < k < |xs| ensures le(h, xs[k]) {
      assert h in xs + [h] && xs[0] in xs + [h] && xs[k] in xs + [h];
    }
  }

  /** The first element of a sorted sequence is below everything the rest becomes once `h` is inserted. */
  lemma FirstBelowRest<T>(xs: seq<T>, h: T, le: (T, T) -> bool, rest: seq<T>)
    requires xs != [] && PreorderOn(xs + [h], le) && SortedBy(xs, le) && !le(h, xs[0])
    requires multiset(rest) == multiset(xs[1..]) + multiset{h}
    ensures forall k :: 0 <= k < |rest| ==> le(xs[0], rest[k])
  {
    assert h in xs + [h] && xs[0] in xs + [h];
    forall k | 0 <= k < |rest| ensures le(xs[0], rest[k]) {
      assert rest[k] in multiset(rest);
      if rest[k] != h {
        assert rest[k] in multiset(xs[1..]);
        var m :| 0 <= m < |xs[1..]| && xs[1..][m] == rest[k];
        assert le(xs[0], xs[m + 1]);
      }
    }
  }

  lemma SortedTail<T>(xs: seq<T>, le: (T, T) -> bool)
    requires xs != [] && SortedBy(xs, le)
    ensures SortedBy(xs[1..], le)
  {
    forall i, j | 0 <= i < j < |xs| - 1 ensures le(xs[1..][i], xs[1..][j]) {
      assert xs[1..][i] == xs[i + 1] && xs[1..][j] == xs[j + 1];
    }
  }

  /** Two sorted arrangements of the same elements under an antisymmetric order begin alike. */
  lemma SameFirst<T>(xs: seq<T>, ys: seq<T>, le: (T, T) -> bool)
    requires xs != [] && SortedBy(xs, le) && SortedBy(ys, le) && multiset(xs) == multiset(ys)
    requires AntisymmetricOn(xs, le)
    ensures ys != [] && xs[0] == ys[0]
  {
    assert xs[0] in multiset(ys);
    var i :| 0 <= i < |ys| && ys[i] == xs[0];
    assert ys[0] in multiset(xs);
    var j :| 0 <= j < |xs| && xs[j] == ys[0];
    if i != 0 && j != 0 {
      assert le(ys[0], ys[i]) && le(xs[0], xs[j]);
      assert ys[0] in xs && xs[0] in xs;
    }
  }

  lemma AntisymmetricTail<T>(xs: seq<T>, le: (T, T) -> bool)
    requires xs != [] && AntisymmetricOn(xs, le)
    ensures AntisymmetricOn(xs[1..], le)
  {
    forall a | a in xs[1..] ensures a in xs {
      var k :| 0 <= k < |xs[1..]| && xs[1..][k] == a;
      assert xs[k + 1] == a;
    }
  }

  /** Two sorted arrangements of the same elements under an antisymmetric order are the same sequence. */
  lemma {:induction false} SortedUnique<T>(xs: seq<T>, ys: seq<T>, le: (T, T) -> bool)
    requires SortedBy(xs, le) && SortedBy(ys, le) && multiset(xs) == multiset(ys)
    requires AntisymmetricOn(xs, le)
    ensures xs == ys
    decreases |xs|
  {
    if xs == [] {
      assert |ys| == |multiset(ys)| == 0;
    } else {
      SameFirst(xs, ys, le);
      assert xs == [xs[0]] + xs[1..] && ys == [ys[0]] + ys[1..];
      assert multiset(xs) == multiset{xs[0]} + multiset(xs[1..]);
      assert multiset(ys) == multiset{ys[0]} + multiset(ys[1..]);
      assert multiset(xs[1..]) == multiset(xs) - multiset{xs[0]} == multiset(ys[1..]);
      SortedTail(xs, le);
      SortedTail(ys, le);
      AntisymmetricTail(xs, le);
      SortedUnique(xs[1..], ys[1..], le);
    }
  }

  /** On hands of one length that `hand_type` classifies, `Le` is a total order. */
  lemma HandOrder(hs: seq<Hand>, n: nat)
    requires AllComparable(hs, n)
    ensures PreorderOn(hs, Le) && AntisymmetricOn(hs, Le)
  {
    forall a, b | a in hs && b in hs ensures Le(a, b) || Le(b, a) {
      CompareTotal(a, b);
    }
    forall a, b, c | a in hs && b in hs && c in hs && Le(a, b) && Le(b, c) ensures Le(a, c) {
      CompareTrans(a, b, c);
    }
    forall a, b | a in hs && b in hs && Le(a, b) && Le(b, a) ensures a == b {
      CompareFlip(a, b);
      CompareEqual(a, b);
    }
  }

  /** Position-weighted bids: the first hand counts once, the next twice, and so on. */
  function WinningsOf(hs: seq<Hand>): nat
  {
    if hs == [] then 0 else WinningsOf(hs[..|hs| - 1]) + |hs| * hs[|hs| - 1].bid
  }

  /** The winnings are the sum over positions `i` of `(i + 1) * bid`, taken from the front. */
  function Weighted(hs: seq<Hand>, weight: nat): nat
  {
    if hs == [] then 0 else weight * hs[0].bid + Weighted(hs[1..], weight + 1)
  }

  lemma {:induction false} WeightedSnoc(hs: seq<Hand>, h: Hand, weight: nat)
    ensures Weighted(hs + [h], weight) == Weighted(hs, weight) + (weight + |hs|) * h.bid
    decreases |hs|
  {
    if hs != [] {
      assert (hs + [h])[1..] == hs[1..] + [h];
      WeightedSnoc(hs[1..], h, weight + 1);
    }
  }

  /** Both ways of summing the weighted bids agree. */
  lemma {:induction false} WinningsWeighted(hs: seq<Hand>)
    ensures WinningsOf(hs) == Weighted(hs, 1)
    decreases |hs|
  {
    if hs != [] {
      var front := hs[..|hs| - 1];
      assert hs == front + [hs[|hs| - 1]];
      WinningsWeighted(front);
      WeightedSnoc(front, hs[|hs| - 1], 1);
    }
  }

  /** `Hand::from_str`: two words, the cards and the bid. */
  predicate ParsableHand(line: string)
  {
    var words := Split(line, " ");
    |words| == 2 ==>
      (forall k :: 0 <= k < |words[0]| ==> words[0][k] in CardChars) && IsDecimal(words[1])
  }

  function ParseHand(line: string): (r: Result<Hand, ParseError>)
    requires ParsableHand(line)
    ensures r.Err? <==> |Split(line, " ")| != 2
    ensures r.Err? ==> r.error == WordCount(|Split(line, " ")|)
    ensures r.Ok? ==> |r.value.cards| == |Split(line, " ")[0]|
  {
    var words := Split(line, " ");
    if |words| != 2 then Err(WordCount(|words|))
    else Ok(Hand(seq(|words[0]|, k requires 0 <= k < |words[0]| => CardOf(words[0][k])), ParseNat(words[1])))
  }

  /** A hand written as a line: its card characters, a space, the bid. */
  function FormatHand(h: Hand): string
  {
    seq(|h.cards|, k requires 0 <= k < |h.cards| => CharOf(h.cards[k])) + " " + Show(h.bid)
  }

  /** Writing a card and reading it back gives the card. */
  lemma CardOfCharOf(c: Card)
    ensures CharOf(c) in CardChars && CardOf(CharOf(c)) == c
  {
  }

  /** Reading a written hand gives the hand back. */
  lemma ParseFormatHand(h: Hand)
    ensures ParsableHand(FormatHand(h)) && ParseHand(FormatHand(h)) == Ok(h)
  {
    var w := seq(|h.cards|, k requires 0 <= k < |h.cards| => CharOf(h.cards[k]));
    var b := Show(h.bid);
    forall k | 0 <= k < |w| ensures w[k] in CardChars && CardOf(w[k]) == h.cards[k] {
      CardOfCharOf(h.cards[k]);
    }
    assert ' ' !in w;
    assert ' ' !in b;
    SplitAtFirst(w, " ", b);
    NoCharNoOccurrence(b, " ", 0);
    SplitJoin([b], " ");
    assert Join([b], " ") == b;
    assert Split(FormatHand(h), " ") == [w, b];
    assert seq(|w|, k requires 0 <= k < |w| => CardOf(w[k])) == h.cards;
    assert ParseNat(b) == h.bid;
  }

  /** The sort behind `Set::sort`: each element inserted in turn into a sorted prefix. */
  method InsertionSort<T(==)>(xs: seq<T>, le: (T, T) -> bool) returns (sorted: seq<T>)
    requires PreorderOn(xs, le)
    ensures SortedBy(sorted, le) && multiset(sorted) == multiset(xs)
  {
    sorted := [];
    for k := 0 to |xs|
      invariant SortedBy(sorted, le)
      invariant multiset(sorted) == multiset(xs[..k])
    {
      assert xs[..k + 1] == xs[..k] + [xs[k]];
      forall a | a in sorted + [xs[k]] ensures a in xs {
        if a in sorted {
          assert a in multiset(xs[..k]);
        }
      }
      PreorderOnSub(xs, sorted + [xs[k]], le);
      sorted := Insert(sorted, xs[k], le);
    }
    assert xs[..|xs|] == xs;
  }

  /** `Set`: the hands of the input, in input order until sorted. */
  class Set {
    var hands: seq<Hand>

    /** The card count all hands share. */
    function Width(): nat
      reads this
    {
      if hands == [] then 0 else |hands[0].cards|
    }

    ghost predicate Valid()
      reads this
    {
      AllComparable(hands, Width())
    }

    /** `Set::from_str`: one hand per line. */
    constructor FromLines(lines: seq<string>)
      requires forall k :: 0 <= k < |lines| ==> ParsableHand(lines[k]) && ParseHand(lines[k]).Ok?
      ensures hands == seq(|lines|, k requires 0 <= k < |lines| => ParseHand(lines[k]).value)
    {
      hands := seq(|lines|, k requires 0 <= k < |lines| => ParseHand(lines[k]).value);
    }

    /** `Set::sort`: the same hands, in increasing order. */
    method Sort()
      requires Valid()
      modifies this
      ensures Valid() && Width() == old(Width())
      ensures SortedBy(hands, Le)
      ensures multiset(hands) == multiset(old(hands))
    {
      var n := Width();
      var hs := hands;
      HandOrder(hs, n);
      var sorted := InsertionSort(hs, Le);
      forall i | 0 <= i < |sorted| ensures Classified(sorted[i].cards) && |sorted[i].cards| == n {
        assert sorted[i] in multiset(hs);
      }
      assert |sorted| == |multiset(sorted)| == |hs|;
      hands := sorted;
    }

    /** `Set::winnings`: each bid times its position counted from 1. */
    method Winnings() returns (total: nat)
      ensures total == WinningsOf(hands)
    {
      total := 0;
      for i := 0 to |hands|
        invariant total == WinningsOf(hands[..i])
      {
        assert hands[..i + 1][..i] == hands[..i];
        total := total + (i + 1) * hands[i].bid;
      }
      assert hands[..|hands|] == hands;
    }
  }
}
