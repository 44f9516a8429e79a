/**
 * The default ordering of cards: a card's absolute value is its suit's
 * ordinal times the ordinal of the highest rank, plus its rank's ordinal, and
 * one card sorts before another when its absolute value is smaller.
 *
 * The multiplier is the ordinal of King, 12, not the number of ranks, 13, so
 * the last card of one suit and the first card of the next share a value.
 */
module Ordering {
  import opened Cards

  /** The sort key of a card. */
  function AbsValue(c: Card): nat {
    c.suit.Ordinal() * MaxRank.Ordinal() + c.rank.Ordinal()
  }

  /** The default comparator: a sorts strictly before b. */
  predicate Less(a: Card, b: Card) {
    AbsValue(a) < AbsValue(b)
  }

  /**
   * A strict weak order: irreflexive, transitive, and negatively transitive
   * (when a is not less than b and b not less than c, a is not less than c).
   * Sorting needs no more of a comparator.
   */
  ghost predicate StrictWeakOrder(less: (Card, Card) -> bool) {
    && (forall a :: !less(a, a))
    && (forall a, b, c :: less(a, b) && less(b, c) ==> less(a, c))
    && (forall a, b, c :: !less(a, b) && !less(b, c) ==> !less(a, c))
  }

  lemma LessIsStrictWeakOrder()
    ensures StrictWeakOrder(Less)
  {
  }

  /** Standard cards take values 0..48; Jokers take values 48..60. */
  lemma AbsValueRange(c: Card)
    ensures c.suit != Joker ==> AbsValue(c) <= 48
    ensures c.suit == Joker ==> 48 <= AbsValue(c) <= 60
  {
  }

  /** Inside one suit the order is the rank order. */
  lemma LessWithinSuit(a: Card, b: Card)
    requires a.suit == b.suit
    ensures Less(a, b) <==> a.rank.Ordinal() < b.rank.Ordinal()
  {
  }

  /** A card of a lower suit never sorts after a card of a higher suit. */
  lemma LowerSuitNeverAfter(a: Card, b: Card)
    requires a.suit.Ordinal() < b.suit.Ordinal()
    ensures !Less(b, a)
  {
  }

  /**
   * Exactly the pairs made of the King of one suit and the Ace of the next
   * suit share a value; every other pair of distinct cards is ordered.
   */
  lemma {:induction false} AbsValueTies(a: Card, b: Card)
    ensures (a != b && AbsValue(a) == AbsValue(b)) <==>
            (|| (a.rank == King && b.rank == Ace && b.suit.Ordinal() == a.suit.Ordinal() + 1)
             || (b.rank == King && a.rank == Ace && a.suit.Ordinal() == b.suit.Ordinal() + 1))
  {
    var sa, sb, ra, rb := a.suit.Ordinal(), b.suit.Ordinal(), a.rank.Ordinal(), b.rank.Ordinal();
    if a != b && AbsValue(a) == AbsValue(b) {
      if sa == sb {
        RankOrdinalInjective(a.rank, b.rank);
      } else if sa < sb {
        assert (sb - sa) * 12 == ra - rb;
      } else {
        assert (sa - sb) * 12 == rb - ra;
      }
    }
  }

  /** The King of Spades and the Ace of Diamonds are distinct but tie. */
  lemma SpadeKingTiesDiamondAce()
    ensures Card(Spade, King) != Card(Diamond, Ace)
    ensures AbsValue(Card(Spade, King)) == AbsValue(Card(Diamond, Ace)) == 12
    ensures !Less(Card(Spade, King), Card(Diamond, Ace)) && !Less(Card(Diamond, Ace), Card(Spade, King))
  {
  }

  /** The Ace of Spades is the one card of value 0, so no card sorts before it. */
  lemma SpadeAceIsLeast(c: Card)
    ensures !Less(c, Card(Spade, Ace))
    ensures AbsValue(c) == 0 <==> c == Card(Spade, Ace)
  {
    if AbsValue(c) == 0 {
      RankOrdinalInjective(c.rank, Ace);
    }
  }
}
