# Playing-card deck library, modelled in Dafny

This project models the Go package `deck` (file `card.go`): playing cards, the
52-card base deck, the options `New` folds over it (`NoOfDecks`, `FilterOut`,
`AddJokers`, `Shuffle`, `Sort`, `DefaultSort`) and the default card ordering
(`Less`, `absValue`). Every operation is proved against a specification, and
the properties the package and its tests rely on are proved as lemmas.

Files and modules, one per component:

- `cards.dfy`, module `Cards`: the `Suit` and `Rank` enumerations with their
  constant values (`Ordinal`) and name tables (`Name`), the `Card` pair, and
  `CardString`, the display form of a card.
- `ordering.dfy`, module `Ordering`: `AbsValue` (the sort key), `Less` (the
  default comparator) and what kind of order it is.
- `transforms.dfy`, module `Transforms`: each option's closure body as a
  method (`NoOfDecks`, `FilterOut`, `AddJokers`, `Shuffle`, and the in-place
  `Sort` and `DefaultSort` on an array), each tied to a specification on
  sequences (`Repeated`, `Filtered`, `WithJokers`, `Permuted`, `SortedBy`).
- `builder.dfy`, module `Builder`: the base deck (`StandardDeck`), the option
  datatype `DeckOption`, the relation `Applies` saying what one option may
  turn a deck into, and `New`. `New` builds the base deck with two nested
  loops (`BaseDeck`) and then applies the options left to right
  (`ApplyOption`). Its ghost out-parameter `stages` records every
  intermediate deck. The test scenarios of
  `card_test.go` are proved as lemmas about any such record.

Modelling decisions:

- The base deck visits the suits in the order Spade, Heart, Diamond, Club,
  which is the package's `suits` array. This is not the declaration order.
- `absValue` is modelled as written: suit value times `int(maxRank)` plus the
  rank value. `maxRank` is King, whose value is 12, not the 13 ranks. The key
  is suit × 12 + rank, not suit × 13 + rank; the model follows the code. The
  King of one suit and the Ace of the next suit tie (`AbsValueTies`), for example the King of Spades and the
  Ace of Diamonds (`SpadeKingTiesDiamondAce`). The Club King also ties a Joker
  of rank Ace. So the default order is a strict weak order, not a total one.
- A Joker is `Card{Suit: Joker}`, so its rank is the zero value, Ace. It
  follows that a `FilterOut` testing only for rank Ace would remove Jokers
  too. The model keeps this.
- Negative counts: `NoOfDecks(n)` and `AddJokers(n)` loop `for i := 0; i < n`,
  so a negative `n` behaves like zero. The model proves exactly that.
- Randomness is an input. `Shuffle` takes the permutation as a parameter and
  requires it to be a permutation of `0..len-1`. `New` takes `draw(k, n)`,
  which stands for what the shared random source returns on its `k`-th
  shuffle of an `n`-card deck. In the option semantics (`Applies`), a shuffle
  may yield the deck reordered by any permutation. `New` promises more: the
  Shuffle at position k reorders by `draw(s, n)`, where s counts the Shuffles
  before it and n is the deck's length (`ShufflesBefore`, `ShuffledBy`).
- `sort.Slice` is neither stable nor fixed in algorithm. `Sort` is specified
  only as "same cards (multiset), ordered by the comparator". An insertion
  sort implements it, over any comparator that is a strict weak order. In
  the option semantics a sort may yield any such ordering.
- Go's `Sort` takes a factory `less(cards)` that builds an index comparator
  over the slice being sorted. `Less(cards)(i, j)` compares the cards at
  positions `i` and `j`, so the model passes the card comparator itself,
  `(Card, Card) -> bool`.
- Go options are arbitrary functions on card slices. `DeckOption` names the
  package's own options and carries any other function as `Custom`.

## Model

| member | source | states |
|---|---|---|
| `Cards.RankOf` | card.go:25-44 | the rank for each constant value 0..12 has exactly that value |
| `Cards.RankOfOrdinal` | card.go:25-39 | turning a rank into its value and back gives the same rank |
| `Cards.JokerString` | card.go:52-54 | every Joker displays as "Joker", whatever its rank |
| `Cards.CardStringInjective` | card.go:51-56 | two cards that are not both Jokers display the same only if they are the same card |
| `Cards.DisplayFormInjective` | card.go:55 | "<rank> of <suit>s" determines both names when the rank name is one word |
| `Cards.ExampleStrings` | card_test.go:9-21 | the five example cards display as "Joker", "Two of Diamonds", "Seven of Spades", "King of Hearts", "Ace of Clubs" |
| `Ordering.LessIsStrictWeakOrder` | card.go:128-132 | the default comparator is irreflexive, transitive and negatively transitive, which is what sorting needs |
| `Ordering.AbsValueRange` | card.go:134-136 | standard cards take values 0..48 and Jokers 48..60 |
| `Ordering.LessWithinSuit` | card.go:128-136 | within one suit, Less is exactly the rank order |
| `Ordering.LowerSuitNeverAfter` | card.go:134-136 | a card of a lower-valued suit never sorts after a card of a higher-valued suit |
| `Ordering.AbsValueTies` | card.go:134-136 | two distinct cards share a value exactly when one is a King and the other the Ace of the next suit |
| `Ordering.SpadeKingTiesDiamondAce` | card.go:134-136 | the King of Spades and the Ace of Diamonds are distinct, both have value 12, and neither is Less than the other |
| `Ordering.SpadeAceIsLeast` | card.go:134-136 | no card is Less than the Ace of Spades, and it is the only card of value 0 |
| `Transforms.RepeatedAt` | card.go:73-80 | n copies of a k-card deck have max(n,0)·k cards, and position i holds input card i mod k |
| `Transforms.RepeatedEdgeCases` | card.go:76-79 | one copy is the input itself; zero or negative n gives the empty deck |
| `Transforms.NoOfDecks` | card.go:73-81 | the counting loop of appends yields exactly the n copies |
| `Transforms.FilteredIsSubsequence` | card.go:83-92 | the result is the subsequence of the input at exactly the positions where f is false, in increasing order, and never longer than the input |
| `Transforms.FilteredMembers` | card.go:86-90 | a card is in the result exactly when it is in the input and f is false for it |
| `Transforms.FilteredAppend` | card.go:86-90 | filtering two decks laid end to end filters each in turn |
| `Transforms.FilteredNoneMatching` | card.go:86-90 | a filter that matches no card keeps the deck unchanged |
| `Transforms.FilterOut` | card.go:83-93 | the ranging loop of conditional appends yields exactly the filtered deck |
| `Transforms.WithJokersShape` | card.go:95-101 | the input stays an unchanged prefix, followed by exactly max(n,0) Jokers of rank Ace |
| `Transforms.AddJokers` | card.go:95-102 | the counting loop of Joker appends yields exactly that deck |
| `Transforms.PermutationInRange` | card.go:109 | a sequence holding each of 0..n-1 exactly once has length n and no other entry |
| `Transforms.PermutedMultiset` | card.go:106-113 | reordering by a permutation keeps every card with its multiplicity |
| `Transforms.Shuffle` | card.go:106-114 | for a permutation perm, result position i holds input card perm[i]; length and multiset are unchanged; the input is a value and cannot change |
| `Transforms.Sort` | card.go:116-121 | for a strict weak order, the array ends up with the same cards, none sorting strictly before an earlier one |
| `Transforms.DefaultSort` | card.go:123-126 | the array ends up with the same cards, ordered by Less |
| `Transforms.DefaultSortTwoCards` | card_test.go:31-43 | every Less-ordering of the Two of Diamonds and the King of Spades puts the King first |
| `Transforms.DefaultSortTwoCardsExample` | card_test.go:31-43 | DefaultSort on that two-card array leaves the King of Spades at position 0 |
| `Builder.BlocksAt` | card.go:62-66 | position i of suit-by-suit blocks holds suit i/13 of the suit list and the rank of value i mod 13 |
| `Builder.StandardDeckLayout` | card.go:60-66 | the base deck has 52 cards; position i holds suit (Spade, Heart, Diamond, Club)[i/13] and the rank of value i mod 13; it starts with the Ace of Spades |
| `Builder.StandardDeckDistinct` | card.go:60-66 | the 52 cards of the base deck are pairwise distinct |
| `Builder.StandardDeckComplete` | card.go:60-66 | a card is in the base deck exactly when it is not a Joker |
| `Builder.FilteredStandardDeck` | card_test.go:75-99 | filtering out a set of ranks removes four cards per rank from the base deck |
| `Builder.BaseDeck` | card.go:61-66 | the two nested loops build exactly the base deck |
| `Builder.ApplyOption` | card.go:67-69 | one option applied to a deck yields a deck that option may produce, given a permutation when it is a Shuffle and a strict weak order when it is a Sort; a Shuffle reorders by exactly the permutation passed in |
| `Builder.New` | card.go:60-71 | the result is the base deck with every option applied once, in the order given; the Shuffle at position k reorders its input by draw(s, n), s being the number of earlier Shuffles and n the input's length; a sort may yield any valid ordering |
| `Builder.ShuffleNewExample` | card_test.go:55-66 | New(Shuffle) holds at each position i the base deck's card at draw(0, 52)[i], so its first card is the base deck's card at the drawn permutation's first entry |
| `Builder.ShuffleKeepsCards` | card.go:106-113 | a Shuffle stage of New keeps the length and the multiset of the deck |
| `Builder.FilterDecksJokersLength` | card.go:67-70 | FilterOut of a rank set, then n decks, then m Jokers gives (52 − 4·ranks)·max(n,0) + max(m,0) cards |
| `Builder.DecksJokersLength` | card.go:73-102 | n decks of a deck, then m Jokers, hold (cards in the deck)·max(n,0) + max(m,0) cards |
| `Builder.FilterTwosThreesTripleAddFive` | card_test.go:88-99 | New(FilterOut(Two or Three), NoOfDecks(3), AddJokers(5)) has (52−8)·3+5 cards |
| `Builder.AddFiveFilterTwos` | card_test.go:75-86 | New(AddJokers(5), FilterOut(Two)) has 52+5−4 cards |
| `Builder.AddFiveShuffle` | card_test.go:68-73 | New(AddJokers(5), Shuffle) has 52+5 cards |
| `Builder.SortedDeckStartsWithSpadeAce` | card_test.go:45-53 | New(Sort(Less)) has 52 cards and starts with the Ace of Spades, whatever the sort's tie order |
| `Builder.SortedStartsWithSpadeAce` | card_test.go:45-53 | every Less-ordering of a deck holding the Ace of Spades keeps its length and starts with that card |
| `Builder.SortedNewExample` | card_test.go:45-53 | calling New with Sort(Less) returns a deck whose first card is the Ace of Spades |
| `Builder.FilterTripleAddFiveExample` | card_test.go:88-99 | calling New with the three options returns 137 cards |

## Left out

- The shared random source `shuffleRand`, seeded from the clock (card.go:104), and `rand.Perm` (card.go:109): the permutation is an input.
- The concrete cards `TestShuffle` expects with seed 0: they depend on Go's generator algorithm, which is not part of this model. Its structure, that New(Shuffle) takes the base deck's card at the drawn permutation's entries, is modelled.
- `sort.Slice`'s algorithm and tie order: any ordering that sorts the same cards is accepted.
- The generated `Suit.String` and `Rank.String` methods are not part of this model. They are replaced by name tables built from the constant identifiers, which is what the example outputs show.
- Suit and rank values outside the declared constants (both are `uint8` in Go): the enumerations hold only the named constants.
- Slice aliasing: `AddJokers` appends to the caller's slice and may share its backing array. `Sort` returns the same slice it sorted. The model treats decks as values, except inside `Sort`/`DefaultSort`, which work on an array.
- `fmt.Sprintf` formatting beyond plain concatenation.
- Transforms.Sort: comparators that are not strict weak orders are not covered. A Go factory that looks at positions rather than at cards is not covered either.
