/**
 * The card model of the deck library: suits, ranks, the (suit, rank) pair and
 * its display string.
 *
 * Suit and Rank are small unsigned enumerations; each constructor's ordinal is
 * the value of the enumeration constant it stands for (Spade = 0, ...,
 * Joker = 4; Ace = 0, ..., King = 12).
 */
module Cards {

  datatype Suit = Spade | Diamond | Heart | Club | Joker {
    /** The value of the suit constant (its declaration position). */
    function Ordinal(): (n: nat)
      ensures n <= 4
      ensures n == 4 <==> this == Joker
    {
      match this
      case Spade => 0
      case Diamond => 1
      case Heart => 2
      case Club => 3
      case Joker => 4
    }

    /** The constant's identifier, as the generated suit name table gives it. */
    function Name(): string {
      match this
      case Spade => "Spade"
      case Diamond => "Diamond"
      case Heart => "Heart"
      case Club => "Club"
      case Joker => "Joker"
    }
  }

  datatype Rank = Ace | Two | Three | Four | Five | Six | Seven | Eight | Nine | Ten | Jack | Queen | King {
    /** The value of the rank constant (its declaration position). */
    function Ordinal(): (n: nat)
      ensures n <= 12
    {
      match this
      case Ace => 0
      case Two => 1
      case Three => 2
      case Four => 3
      case Five => 4
      case Six => 5
      case Seven => 6
      case Eight => 7
      case Nine => 8
      case Ten => 9
      case Jack => 10
      case Queen => 11
      case King => 12
    }

    /** The constant's identifier, as the generated rank name table gives it. */
    function Name(): string {
      match this
      case Ace => "Ace"
      case Two => "Two"
      case Three => "Three"
      case Four => "Four"
      case Five => "Five"
      case Six => "Six"
      case Seven => "Seven"
      case Eight => "Eight"
      case Nine => "Nine"
      case Ten => "Ten"
      case Jack => "Jack"
      case Queen => "Queen"
      case King => "King"
    }
  }

  const MinRank: Rank := Ace
  const MaxRank: Rank := King

  /** The rank whose constant has value n; the inverse of Rank.Ordinal. */
  function RankOf(n: nat): (r: Rank)
    requires n <= MaxRank.Ordinal()
    ensures r.Ordinal() == n
  {
    match n
    case 0 => Ace
    case 1 => Two
    case 2 => Three
    case 3 => Four
    case 4 => Five
    case 5 => Six
    case 6 => Seven
    case 7 => Eight
    case 8 => Nine
    case 9 => Ten
    case 10 => Jack
    case 11 => Queen
    case _ => King
  }

  lemma RankOrdinalInjective(r1: Rank, r2: Rank)
    ensures r1.Ordinal() == r2.Ordinal() ==> r1 == r2
  {
  }

  lemma RankOfOrdinal(r: Rank)
    ensures RankOf(r.Ordinal()) == r
  {
    RankOrdinalInjective(RankOf(r.Ordinal()), r);
  }

  datatype Card = Card(suit: Suit, rank: Rank)

  /** A card of the sentinel suit; its rank is the zero value, Ace. */
  const JokerCard: Card := Card(Joker, Ace)

  /**
   * The display form of a card: the suit name alone for a Joker, otherwise
   * "<rank name> of <suit name>s".
   */
  function CardString(c: Card): string {
    if c.suit == Joker then c.suit.Name()
    else c.rank.Name() + " of " + c.suit.Name() + "s"
  }

  lemma RankNameShape(r: Rank)
    ensures 3 <= |r.Name()| <= 5
    ensures ' ' !in r.Name()
  {
  }

  lemma SuitNameShape(s: Suit)
    ensures 4 <= |s.Name()|
  {
  }

  lemma RankNameInjective(r1: Rank, r2: Rank)
    ensures r1.Name() == r2.Name() ==> r1 == r2
  {
  }

  lemma SuitNameInjective(s1: Suit, s2: Suit)
    ensures s1.Name() == s2.Name() ==> s1 == s2
  {
  }

  /** Every Joker displays as "Joker", whatever rank it carries. */
  lemma JokerString(c: Card)
    requires c.suit == Joker
    ensures CardString(c) == "Joker"
  {
  }

  /** The index of the first space in s, or |s| when there is none. */
  function FirstSpace(s: string): (k: nat)
    ensures k <= |s|
  {
    if s == [] || s[0] == ' ' then 0 else 1 + FirstSpace(s[1..])
  }

  /** A word without spaces is recovered from any text it starts, up to the first space. */
  lemma {:induction false} FirstSpaceAfterWord(w: string, t: string)
    requires ' ' !in w
    ensures FirstSpace(w + " " + t) == |w|
  {
    if w != [] {
      assert (w + " " + t)[1..] == w[1..] + " " + t;
      FirstSpaceAfterWord(w[1..], t);
    }
  }

  /** "<x> of <a>s" determines x and a when x is a single word. */
  lemma DisplayFormInjective(x: string, a: string, y: string, b: string)
    requires ' ' !in x && ' ' !in y
    requires x + " of " + a + "s" == y + " of " + b + "s"
    ensures x == y && a == b
  {
    var s := x + " of " + a + "s";
    assert s == x + " " + ("of " + a + "s");
    assert s == y + " " + ("of " + b + "s");
    FirstSpaceAfterWord(x, "of " + a + "s");
    FirstSpaceAfterWord(y, "of " + b + "s");
    assert x == s[..|x|] == y;
    assert a == s[|x| + 4..|s| - 1] == b;
  }

  /** Distinct cards display differently, unless both are Jokers. */
  lemma CardStringInjective(c1: Card, c2: Card)
    requires c1.suit != Joker || c2.suit != Joker
    ensures CardString(c1) == CardString(c2) ==> c1 == c2
  {
    if CardString(c1) == CardString(c2) {
      RankNameShape(c1.rank);
      RankNameShape(c2.rank);
      SuitNameShape(c1.suit);
      SuitNameShape(c2.suit);
      assert |CardString(c1)| > 5 || |CardString(c2)| > 5;
      DisplayFormInjective(c1.rank.Name(), c1.suit.Name(), c2.rank.Name(), c2.suit.Name());
      RankNameInjective(c1.rank, c2.rank);
      SuitNameInjective(c1.suit, c2.suit);
    }
  }

  /** The display strings of the library's own example cards. */
  lemma ExampleStrings()
    ensures CardString(JokerCard) == "Joker"
    ensures CardString(Card(Diamond, Two)) == "Two of Diamonds"
    ensures CardString(Card(Spade, Seven)) == "Seven of Spades"
    ensures CardString(Card(Heart, King)) == "King of Hearts"
    ensures CardString(Card(Club, Ace)) == "Ace of Clubs"
  {
  }
}
