/**
 * Deck construction: the 52-card base deck, built suit by suit and rank by
 * rank, followed by the caller's options applied left to right.
 */
module Builder {
  import opened Cards
  import opened Ordering
  import opened Transforms

  /** The order the base deck visits the suits in; not their declaration order. */
  const Suits: seq<Suit> := [Spade, Heart, Diamond, Club]

  /** The thirteen cards of one suit, Ace first and King last. */
  function SuitBlock(s: Suit): seq<Card> {
    seq(13, r requires 0 <= r < 13 => Card(s, RankOf(r)))
  }

  /** One suit block per suit of ss, in the order of ss. */
  function Blocks(ss: seq<Suit>): seq<Card> {
    if ss == [] then [] else Blocks(ss[..|ss| - 1]) + SuitBlock(ss[|ss| - 1])
  }

  /** The deck New starts from, before any option. */
  function StandardDeck(): seq<Card> {
    Blocks(Suits)
  }

  lemma {:induction false} BlocksLength(ss: seq<Suit>)
    ensures |Blocks(ss)| == 13 * |ss|
  {
    if ss != [] {
      BlocksLength(ss[..|ss| - 1]);
    }
  }

  /** Position i of the blocks holds suit ss[i / 13] and the rank of ordinal i % 13. */
  lemma {:induction false} BlocksAt(ss: seq<Suit>, i: nat)
    requires i < 13 * |ss|
    ensures i < |Blocks(ss)| && Blocks(ss)[i] == Card(ss[i / 13], RankOf(i % 13))
  {
    BlocksLength(ss);
    var m := |ss| - 1;
    BlocksLength(ss[..m]);
    if i < 13 * m {
      BlocksAt(ss[..m], i);
      assert ss[..m][i / 13] == ss[i / 13];
    } else {
      assert i / 13 == m && i % 13 == i - 13 * m;
    }
  }

  /**
   * The base deck has 52 cards; position i holds suit Suits[i / 13] (Spade,
   * Heart, Diamond, Club) and the rank of ordinal i % 13.
   */
  lemma StandardDeckLayout()
    ensures |StandardDeck()| == 52
    ensures forall i :: 0 <= i < 52 ==> StandardDeck()[i] == Card(Suits[i / 13], RankOf(i % 13))
    ensures StandardDeck()[0] == Card(Spade, Ace)
  {
    BlocksLength(Suits);
    forall i | 0 <= i < 52
      ensures StandardDeck()[i] == Card(Suits[i / 13], RankOf(i % 13))
    {
      BlocksAt(Suits, i);
    }
  }

  /** No card occurs twice in the base deck. */
  lemma StandardDeckDistinct()
    ensures |StandardDeck()| == 52
    ensures forall i, j :: 0 <= i < j < 52 ==> StandardDeck()[i] != StandardDeck()[j]
  {
    StandardDeckLayout();
    forall i, j | 0 <= i < j < 52
      ensures StandardDeck()[i] != StandardDeck()[j]
    {
    }
  }

  /** The base deck holds every standard card, and no Joker. */
  lemma StandardDeckComplete(c: Card)
    ensures c in StandardDeck() <==> c.suit != Joker
  {
    StandardDeckLayout();
    if c.suit != Joker {
      var s := match c.suit
        case Spade => 0
        case Heart => 1
        case Diamond => 2
        case _ => 3;
      var i := 13 * s + c.rank.Ordinal();
      assert i / 13 == s && i % 13 == c.rank.Ordinal();
      RankOfOrdinal(c.rank);
      assert StandardDeck()[i] == c;
    }
  }

  // ---------------------------------------------------------------------------
  // Filtering the base deck by rank

  /** The ranks whose ordinal is below r. */
  function RanksBelow(r: nat): set<Rank>
    requires r <= 13
  {
    if r == 0 then {} else RanksBelow(r - 1) + {RankOf(r - 1)}
  }

  lemma {:induction false} RanksBelowExact(r: nat)
    requires r <= 13
    ensures forall x :: x in RanksBelow(r) <==> x.Ordinal() < r
  {
    if r > 0 {
      RanksBelowExact(r - 1);
      forall x: Rank | x.Ordinal() == r - 1
        ensures x == RankOf(r - 1)
      {
        RankOrdinalInjective(x, RankOf(r - 1));
      }
    }
  }

  /** Extending the range by the rank of ordinal r - 1 adds that rank, if it is in the set. */
  lemma RanksBelowStep(ranks: set<Rank>, r: nat)
    requires 0 < r <= 13
    ensures |ranks * RanksBelow(r)| == |ranks * RanksBelow(r - 1)| + (if RankOf(r - 1) in ranks then 1 else 0)
  {
    var x := RankOf(r - 1);
    RanksBelowExact(r - 1);
    assert x !in RanksBelow(r - 1);
    if x in ranks {
      assert ranks * RanksBelow(r) == ranks * RanksBelow(r - 1) + {x};
    } else {
      assert ranks * RanksBelow(r) == ranks * RanksBelow(r - 1);
    }
  }

  /** Filtering the first r cards of a suit by a set of ranks drops one card per rank of the set below r. */
  lemma {:induction false} FilteredSuitPrefix(s: Suit, f: Card -> bool, ranks: set<Rank>, r: nat)
    requires forall c :: f(c) == (c.rank in ranks)
    requires r <= 13
    ensures |Filtered(SuitBlock(s)[..r], f)| == r - |ranks * RanksBelow(r)|
  {
    if r > 0 {
      var b := SuitBlock(s);
      var x := RankOf(r - 1);
      FilteredSuitPrefix(s, f, ranks, r - 1);
      assert b[..r][..r - 1] == b[..r - 1];
      assert b[..r][r - 1] == Card(s, x);
      RanksBelowStep(ranks, r);
    }
  }

  /** Filtering a whole suit by a set of ranks drops one card per rank of the set. */
  lemma SuitBlockFiltered(s: Suit, f: Card -> bool, ranks: set<Rank>)
    requires forall c :: f(c) == (c.rank in ranks)
    ensures |Filtered(SuitBlock(s), f)| == 13 - |ranks|
  {
    var b := SuitBlock(s);
    assert |b| == 13;
    assert b[..13] == b;
    FilteredSuitPrefix(s, f, ranks, 13);
    AllRanksBelowThirteen(ranks);
  }

  lemma AllRanksBelowThirteen(ranks: set<Rank>)
    ensures ranks * RanksBelow(13) == ranks
  {
    RanksBelowExact(13);
  }

  /** Filtering each of several suit blocks by a set of ranks removes that many cards from each. */
  lemma {:induction false} FilteredBlocks(ss: seq<Suit>, f: Card -> bool, ranks: set<Rank>)
    requires forall c :: f(c) == (c.rank in ranks)
    ensures |Filtered(Blocks(ss), f)| == |ss| * (13 - |ranks|)
  {
    if ss != [] {
      var m := |ss| - 1;
      var front, last := Blocks(ss[..m]), SuitBlock(ss[m]);
      assert Blocks(ss) == front + last;
      FilteredBlocks(ss[..m], f, ranks);
      FilteredAppend(front, last, f);
      SuitBlockFiltered(ss[m], f, ranks);
      var k := 13 - |ranks|;
      assert |Filtered(Blocks(ss), f)| == m * k + k;
      MulSucc(m, k);
    }
  }

  lemma MulSucc(m: int, k: int)
    ensures (m + 1) * k == m * k + k
  {
  }

  /** Filtering out a set of ranks removes four cards per rank from the base deck. */
  lemma FilteredStandardDeck(f: Card -> bool, ranks: set<Rank>)
    requires forall c :: f(c) == (c.rank in ranks)
    ensures |Filtered(StandardDeck(), f)| == 52 - 4 * |ranks|
  {
    FilteredBlocks(Suits, f, ranks);
  }

  // ---------------------------------------------------------------------------
  // Options and New

  /**
   * The options New accepts. Go options are arbitrary functions on card
   * slices; the library's own are named here, and Custom carries any other.
   */
  datatype DeckOption =
    | NoOfDecks(n: int)
    | FilterOut(f: Card -> bool)
    | AddJokers(n: int)
    | Shuffle
    | Sort(less: (Card, Card) -> bool)
    | DefaultSort
    | Custom(apply: seq<Card> -> seq<Card>)

  /**
   * What applying option o to the deck before may yield. Shuffle may yield
   * any reordering by a permutation, and a sort any ordering of the same
   * cards: the random source and the sort algorithm are not fixed.
   */
  ghost predicate Applies(o: DeckOption, before: seq<Card>, after: seq<Card>) {
    match o
    case NoOfDecks(n) => after == Repeated(before, n)
    case FilterOut(f) => after == Filtered(before, f)
    case AddJokers(n) => after == WithJokers(before, n)
    case Shuffle => exists perm :: ShuffledBy(before, after, perm)
    case Sort(less) => multiset(after) == multiset(before) && SortedBy(less, after)
    case DefaultSort => multiset(after) == multiset(before) && SortedBy(Less, after)
    case Custom(apply) => after == apply(before)
  }

  /** after is before reordered by the permutation perm. */
  ghost predicate ShuffledBy(before: seq<Card>, after: seq<Card>, perm: seq<int>) {
    IsPermutation(perm, |before|) && after == Permuted(before, perm)
  }

  /** stages[0] is the base deck and each stage is the option before it applied to the previous stage. */
  ghost predicate Trace(opts: seq<DeckOption>, stages: seq<seq<Card>>) {
    && |stages| == |opts| + 1
    && stages[0] == StandardDeck()
    && forall k :: 0 <= k < |opts| ==> Applies(opts[k], stages[k], stages[k + 1])
  }

  /** The base deck: for each suit of Suits in turn, every rank from MinRank to MaxRank. */
  method BaseDeck() returns (cards: seq<Card>)
    ensures cards == StandardDeck()
  {
    cards := [];
    for si := 0 to |Suits|
      invariant cards == Blocks(Suits[..si])
    {
      for r := MinRank.Ordinal() to MaxRank.Ordinal() + 1
        invariant cards == Blocks(Suits[..si]) + SuitBlock(Suits[si])[..r]
      {
        cards := cards + [Card(Suits[si], RankOf(r))];
      }
      assert SuitBlock(Suits[si])[..13] == SuitBlock(Suits[si]);
      assert Suits[..si + 1][..si] == Suits[..si];
    }
    assert Suits[..4] == Suits;
  }

  /**
   * One option applied to a deck. perm is what the random source yields for
   * this call; only Shuffle uses it.
   */
  method ApplyOption(o: DeckOption, cards: seq<Card>, perm: seq<int>) returns (next: seq<Card>)
    requires o.Sort? ==> StrictWeakOrder(o.less)
    requires o.Shuffle? ==> IsPermutation(perm, |cards|)
    ensures Applies(o, cards, next)
    ensures o.Shuffle? ==> next == Permuted(cards, perm)
  {
    match o {
    case NoOfDecks(n) =>
      next := Transforms.NoOfDecks(n, cards);
    case FilterOut(f) =>
      next := Transforms.FilterOut(f, cards);
    case AddJokers(n) =>
      next := Transforms.AddJokers(n, cards);
    case Shuffle =>
      next := Transforms.Shuffle(cards, perm);
      assert ShuffledBy(cards, next, perm);
    case Sort(less) =>
      var a := new Card[|cards|](i requires 0 <= i < |cards| => cards[i]);
      assert a[..] == cards;
      Transforms.Sort(less, a);
      next := a[..];
    case DefaultSort =>
      var a := new Card[|cards|](i requires 0 <= i < |cards| => cards[i]);
      assert a[..] == cards;
      Transforms.DefaultSort(a);
      next := a[..];
    case Custom(apply) =>
      next := apply(cards);
    }
  }

  /** The number of Shuffle options among the first k options. */
  function ShufflesBefore(opts: seq<DeckOption>, k: nat): nat
    requires k <= |opts|
  {
    if k == 0 then 0 else ShufflesBefore(opts, k - 1) + (if opts[k - 1].Shuffle? then 1 else 0)
  }

  /**
   * New(opts...): the base deck, then each option in turn. draw(k, n) stands
   * for the permutation of 0..n-1 the shared random source yields on its k-th
   * use by Shuffle. The ghost stages record every intermediate deck.
   */
  method New(opts: seq<DeckOption>, draw: (nat, nat) -> seq<int>) returns (cards: seq<Card>, ghost stages: seq<seq<Card>>)
    requires forall k :: 0 <= k < |opts| && opts[k].Sort? ==> StrictWeakOrder(opts[k].less)
    requires forall k: nat, n: nat :: IsPermutation(draw(k, n), n)
    ensures Trace(opts, stages)
    ensures cards == stages[|opts|]
    ensures forall k :: 0 <= k < |opts| && opts[k].Shuffle? ==>
              ShuffledBy(stages[k], stages[k + 1], draw(ShufflesBefore(opts, k), |stages[k]|))
  {
    cards := BaseDeck();
    stages := [cards];
    var shuffles: nat := 0;
    for k := 0 to |opts|
      invariant |stages| == k + 1 && stages[0] == StandardDeck() && stages[k] == cards
      invariant shuffles == ShufflesBefore(opts, k)
      invariant forall i :: 0 <= i < k ==> StepFollows(opts, stages, draw, i)
    {
      var perm := draw(shuffles, |cards|);
      assert IsPermutation(perm, |cards|);
      var next := ApplyOption(opts[k], cards, perm);
      if opts[k].Shuffle? {
        assert ShuffledBy(cards, next, perm);
        shuffles := shuffles + 1;
      }
      ExtendSteps(opts, stages, next, draw, k);
      stages := stages + [next];
      cards := next;
    }
    StepsGiveTrace(opts, stages, draw);
  }

  /**
   * Stage i + 1 is option i applied to stage i; a Shuffle uses the draw
   * numbered by the Shuffles before it.
   */
  ghost predicate StepFollows(opts: seq<DeckOption>, stages: seq<seq<Card>>, draw: (nat, nat) -> seq<int>, i: nat)
    requires i < |opts| && i + 1 < |stages|
  {
    && Applies(opts[i], stages[i], stages[i + 1])
    && (opts[i].Shuffle? ==> ShuffledBy(stages[i], stages[i + 1], draw(ShufflesBefore(opts, i), |stages[i]|)))
  }

  /** Stages that follow every step form a trace, with each Shuffle using its draw. */
  lemma StepsGiveTrace(opts: seq<DeckOption>, stages: seq<seq<Card>>, draw: (nat, nat) -> seq<int>)
    requires |stages| == |opts| + 1 && stages[0] == StandardDeck()
    requires forall i :: 0 <= i < |opts| ==> StepFollows(opts, stages, draw, i)
    ensures Trace(opts, stages)
    ensures forall k :: 0 <= k < |opts| && opts[k].Shuffle? ==>
              ShuffledBy(stages[k], stages[k + 1], draw(ShufflesBefore(opts, k), |stages[k]|))
  {
    forall k | 0 <= k < |opts|
      ensures Applies(opts[k], stages[k], stages[k + 1])
      ensures opts[k].Shuffle? ==> ShuffledBy(stages[k], stages[k + 1], draw(ShufflesBefore(opts, k), |stages[k]|))
    {
      assert StepFollows(opts, stages, draw, k);
    }
  }

  /** Appending the next stage keeps the earlier steps and adds step k. */
  lemma ExtendSteps(opts: seq<DeckOption>, stages: seq<seq<Card>>, next: seq<Card>, draw: (nat, nat) -> seq<int>, k: nat)
    requires k < |opts| && |stages| == k + 1
    requires forall i :: 0 <= i < k ==> StepFollows(opts, stages, draw, i)
    requires Applies(opts[k], stages[k], next)
    requires opts[k].Shuffle? ==> ShuffledBy(stages[k], next, draw(ShufflesBefore(opts, k), |stages[k]|))
    ensures forall i :: 0 <= i <= k ==> StepFollows(opts, stages + [next], draw, i)
  {
    var longer := stages + [next];
    forall i | 0 <= i <= k
      ensures StepFollows(opts, longer, draw, i)
    {
      if i < k {
        StepAgrees(opts, stages, longer, draw, i);
      } else {
        assert longer[k] == stages[k] && longer[k + 1] == next;
      }
    }
  }

  /** A step depends only on the two stages it joins. */
  lemma StepAgrees(opts: seq<DeckOption>, stages: seq<seq<Card>>, other: seq<seq<Card>>, draw: (nat, nat) -> seq<int>, i: nat)
    requires i < |opts| && i + 1 < |stages| && i + 1 < |other|
    requires other[i] == stages[i] && other[i + 1] == stages[i + 1]
    requires StepFollows(opts, stages, draw, i)
    ensures StepFollows(opts, other, draw, i)
  {
  }

  // ---------------------------------------------------------------------------
  // Whole pipelines

  /** A Shuffle stage keeps every card, with its multiplicity. */
  lemma ShuffleKeepsCards(before: seq<Card>, after: seq<Card>)
    requires Applies(Shuffle, before, after)
    ensures |after| == |before| && multiset(after) == multiset(before)
  {
    var perm :| ShuffledBy(before, after, perm);
    PermutedMultiset(before, perm);
  }

  /**
   * Filtering out a set of ranks, then taking n decks, then adding m Jokers
   * yields (52 - 4 * |ranks|) * max(n, 0) + max(m, 0) cards.
   */
  lemma FilterDecksJokersLength(f: Card -> bool, ranks: set<Rank>, n: int, m: int, stages: seq<seq<Card>>)
    requires forall c :: f(c) == (c.rank in ranks)
    requires Trace([FilterOut(f), NoOfDecks(n), AddJokers(m)], stages)
    ensures |stages[3]| == (52 - 4 * |ranks|) * Max0(n) + Max0(m)
  {
    var opts := [FilterOut(f), NoOfDecks(n), AddJokers(m)];
    var filtered, decks, withJokers := stages[1], stages[2], stages[3];
    assert Applies(opts[0], stages[0], filtered);
    assert Applies(opts[1], filtered, decks);
    assert Applies(opts[2], decks, withJokers);
    FilteredStandardDeck(f, ranks);
    DecksJokersLength(filtered, decks, withJokers, n, m);
  }

  /** Taking n decks and then adding m Jokers yields |cards| * max(n, 0) + max(m, 0) cards. */
  lemma DecksJokersLength(cards: seq<Card>, decks: seq<Card>, withJokers: seq<Card>, n: int, m: int)
    requires decks == Repeated(cards, n)
    requires withJokers == WithJokers(decks, m)
    ensures |withJokers| == |cards| * Max0(n) + Max0(m)
  {
    RepeatedLength(cards, n);
    WithJokersShape(decks, m);
  }

  predicate IsTwo(c: Card) {
    c.rank == Two
  }

  predicate IsTwoOrThree(c: Card) {
    c.rank == Two || c.rank == Three
  }

  /** New(FilterOut(Two or Three), NoOfDecks(3), AddJokers(5)) has (52 - 8) * 3 + 5 cards. */
  lemma FilterTwosThreesTripleAddFive(stages: seq<seq<Card>>)
    requires Trace([FilterOut(IsTwoOrThree), NoOfDecks(3), AddJokers(5)], stages)
    ensures |stages[3]| == (52 - 8) * 3 + 5
  {
    FilterDecksJokersLength(IsTwoOrThree, {Two, Three}, 3, 5, stages);
  }

  /**
   * New(AddJokers(5), FilterOut(Two)) has 52 + 5 - 4 cards: a Joker's rank is
   * Ace, so the filter keeps all five Jokers.
   */
  lemma AddFiveFilterTwos(stages: seq<seq<Card>>)
    requires Trace([AddJokers(5), FilterOut(IsTwo)], stages)
    ensures |stages[2]| == 52 + 5 - 4
  {
    assert Applies(AddJokers(5), stages[0], stages[1]);
    assert Applies(FilterOut(IsTwo), stages[1], stages[2]);
    var deck := StandardDeck();
    StandardDeckLayout();
    WithJokersShape(deck, 5);
    var jokers := stages[1][52..];
    assert stages[1] == deck + jokers;
    FilteredAppend(deck, jokers, IsTwo);
    FilteredStandardDeck(IsTwo, {Two});
    FilteredNoneMatching(jokers, IsTwo);
  }

  /** New(AddJokers(5), Shuffle) has 52 + 5 cards. */
  lemma AddFiveShuffle(stages: seq<seq<Card>>)
    requires Trace([AddJokers(5), Shuffle], stages)
    ensures |stages[2]| == 52 + 5
  {
    assert Applies(AddJokers(5), stages[0], stages[1]);
    assert Applies(Shuffle, stages[1], stages[2]);
    StandardDeckLayout();
    WithJokersShape(stages[0], 5);
    ShuffleKeepsCards(stages[1], stages[2]);
  }

  /** New(Sort(Less)) starts with the Ace of Spades, the one card of value 0. */
  lemma SortedDeckStartsWithSpadeAce(stages: seq<seq<Card>>)
    requires Trace([Sort(Less)], stages)
    ensures |stages[1]| == 52 && stages[1][0] == Card(Spade, Ace)
  {
    var deck, sorted := stages[0], stages[1];
    assert Applies(Sort(Less), deck, sorted);
    StandardDeckLayout();
    assert deck[0] == Card(Spade, Ace);
    SortedStartsWithSpadeAce(deck, sorted);
  }

  /** Any Less-ordering of a deck holding the Ace of Spades starts with it. */
  lemma SortedStartsWithSpadeAce(deck: seq<Card>, sorted: seq<Card>)
    requires Card(Spade, Ace) in deck
    requires multiset(sorted) == multiset(deck) && SortedBy(Less, sorted)
    ensures |sorted| == |deck| && sorted[0] == Card(Spade, Ace)
  {
    assert |sorted| == |multiset(sorted)| == |multiset(deck)| == |deck|;
    assert Card(Spade, Ace) in multiset(sorted);
    var k :| 0 <= k < |sorted| && sorted[k] == Card(Spade, Ace);
    if k != 0 {
      assert !Less(sorted[k], sorted[0]);
    }
    SpadeAceIsLeast(sorted[0]);
  }

  /** A random source stand-in that always draws the identity permutation. */
  function IdentityDraw(k: nat, n: nat): (perm: seq<int>)
    ensures IsPermutation(perm, n)
  {
    Range(n)
  }

  /** New(Sort(Less)) puts the Ace of Spades first. */
  method SortedNewExample() returns (first: Card)
    ensures first == Card(Spade, Ace)
  {
    LessIsStrictWeakOrder();
    var cards, stages := New([Sort(Less)], IdentityDraw);
    SortedDeckStartsWithSpadeAce(stages);
    first := cards[0];
  }

  /**
   * New(Shuffle) puts at each position i the base deck's card at position
   * draw(0, 52)[i]: the first draw of the random source decides the order.
   */
  method ShuffleNewExample(draw: (nat, nat) -> seq<int>) returns (base: seq<Card>, cards: seq<Card>)
    requires forall k: nat, n: nat :: IsPermutation(draw(k, n), n)
    ensures base == StandardDeck() && |base| == 52
    ensures |cards| == 52 && IsPermutation(draw(0, 52), 52)
    ensures forall i :: 0 <= i < 52 ==> cards[i] == base[draw(0, 52)[i]]
  {
    base := BaseDeck();
    StandardDeckLayout();
    ghost var stages;
    cards, stages := New([Shuffle], draw);
    assert ShufflesBefore([Shuffle], 0) == 0;
  }

  /** New(FilterOut(Two or Three), NoOfDecks(3), AddJokers(5)) has 137 cards. */
  method FilterTripleAddFiveExample() returns (count: nat)
    ensures count == (52 - 8) * 3 + 5
  {
    var cards, stages := New([FilterOut(IsTwoOrThree), NoOfDecks(3), AddJokers(5)], IdentityDraw);
    FilterTwosThreesTripleAddFive(stages);
    count := |cards|;
  }
}
