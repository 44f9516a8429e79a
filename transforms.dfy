/**
 * The transformations a deck can be put through. Each Go option is a
 * closure from a card slice to a card slice; here each closure body is a
 * method taking the closure's parameter (n, f, the permutation, the
 * comparator) beside the cards, and each is proved equal to, or to satisfy, a
 * specification stated as a function or predicate on sequences.
 */
module Transforms {
  import opened Cards
  import opened Ordering

  function Max0(n: int): nat {
    if n < 0 then 0 else n
  }

  // ---------------------------------------------------------------------------
  // NoOfDecks: n copies of the input, one after another

  /** n copies of cards; none when n is zero or negative. */
  function Repeated(cards: seq<Card>, n: int): seq<Card>
    decreases n
  {
    if n <= 0 then [] else Repeated(cards, n - 1) + cards
  }

  lemma MulAtLeastOne(a: int, k: nat)
    requires a >= 1
    ensures a * k >= k
  {
  }

  /** (m * k + j) % k == j for a position j inside one copy. */
  lemma ModInCopy(m: nat, k: nat, j: nat)
    requires j < k
    ensures (m * k + j) % k == j
  {
    var x := m * k + j;
    var q, r := x / k, x % k;
    assert x == q * k + r;
    if q < m {
      MulAtLeastOne(m - q, k);
    } else if q > m {
      MulAtLeastOne(q - m, k);
    }
  }

  /** n copies of a k-card deck hold max(n, 0) * k cards. */
  lemma {:induction false} RepeatedLength(cards: seq<Card>, n: int)
    ensures |Repeated(cards, n)| == Max0(n) * |cards|
    decreases n
  {
    if n > 0 {
      RepeatedLength(cards, n - 1);
      assert Max0(n) * |cards| == Max0(n - 1) * |cards| + |cards|;
    }
  }

  /**
   * n copies of a k-card sequence have max(n, 0) * k cards, and position i
   * holds the card at position i % k of the original.
   */
  lemma {:induction false} RepeatedAt(cards: seq<Card>, n: int)
    ensures |Repeated(cards, n)| == Max0(n) * |cards|
    ensures forall i :: 0 <= i < |Repeated(cards, n)| ==> Repeated(cards, n)[i] == cards[i % |cards|]
    decreases n
  {
    if n > 0 {
      RepeatedAt(cards, n - 1);
      RepeatedLength(cards, n);
      var r := Repeated(cards, n);
      var k := |cards|;
      forall i | 0 <= i < |r|
        ensures r[i] == cards[i % k]
      {
        if i >= (n - 1) * k {
          ModInCopy(n - 1, k, i - (n - 1) * k);
        }
      }
    }
  }

  /** One copy is the input itself; zero or fewer copies are empty. */
  lemma RepeatedEdgeCases(cards: seq<Card>, n: int)
    ensures n == 1 ==> Repeated(cards, n) == cards
    ensures n <= 0 ==> Repeated(cards, n) == []
  {
    if n == 1 {
      assert Repeated(cards, 0) == [];
    }
  }

  /** The NoOfDecks(n) option applied to cards: append cards to the result n times. */
  method NoOfDecks(n: int, cards: seq<Card>) returns (ret: seq<Card>)
    ensures ret == Repeated(cards, n)
  {
    ret := [];
    var i := 0;
    while i < n
      invariant 0 <= i <= Max0(n)
      invariant ret == Repeated(cards, i)
      decreases n - i
    {
      ret := ret + cards;
      i := i + 1;
    }
  }

  // ---------------------------------------------------------------------------
  // FilterOut: the cards a predicate rejects, in their order

  /** The cards of the input for which f is false, in their original order. */
  function Filtered(cards: seq<Card>, f: Card -> bool): seq<Card>
  {
    if cards == [] then []
    else
      var last := cards[|cards| - 1];
      Filtered(cards[..|cards| - 1], f) + (if f(last) then [] else [last])
  }

  /** The positions of the input whose card f rejects, in increasing order. */
  function KeptPositions(cards: seq<Card>, f: Card -> bool): seq<nat>
  {
    if cards == [] then []
    else
      var n := |cards| - 1;
      KeptPositions(cards[..n], f) + (if f(cards[n]) then [] else [n])
  }

  /** One kept position per kept card, and no more kept cards than input cards. */
  lemma {:induction false} KeptPositionsLength(cards: seq<Card>, f: Card -> bool)
    ensures |Filtered(cards, f)| == |KeptPositions(cards, f)| <= |cards|
  {
    if cards != [] {
      KeptPositionsLength(cards[..|cards| - 1], f);
    }
  }

  /** The kept positions are increasing positions of the input. */
  lemma {:induction false} KeptPositionsIncreasing(cards: seq<Card>, f: Card -> bool)
    ensures forall k :: 0 <= k < |KeptPositions(cards, f)| ==> KeptPositions(cards, f)[k] < |cards|
    ensures forall k, l :: 0 <= k < l < |KeptPositions(cards, f)| ==> KeptPositions(cards, f)[k] < KeptPositions(cards, f)[l]
  {
    if cards != [] {
      KeptPositionsIncreasing(cards[..|cards| - 1], f);
    }
  }

  /** A position is kept exactly when f rejects the card there. */
  lemma {:induction false} KeptPositionsExact(cards: seq<Card>, f: Card -> bool)
    ensures forall i :: 0 <= i < |cards| ==> (i in KeptPositions(cards, f) <==> !f(cards[i]))
  {
    if cards != [] {
      var n := |cards| - 1;
      KeptPositionsExact(cards[..n], f);
      KeptPositionsIncreasing(cards[..n], f);
      assert n !in KeptPositions(cards[..n], f);
    }
  }

  /** The k-th kept card is the input's card at the k-th kept position. */
  lemma {:induction false} FilteredAtKeptPositions(cards: seq<Card>, f: Card -> bool)
    ensures |Filtered(cards, f)| == |KeptPositions(cards, f)|
    ensures forall k :: 0 <= k < |KeptPositions(cards, f)| ==> KeptPositions(cards, f)[k] < |cards|
    ensures forall k :: 0 <= k < |KeptPositions(cards, f)| ==> Filtered(cards, f)[k] == cards[KeptPositions(cards, f)[k]]
  {
    KeptPositionsLength(cards, f);
    KeptPositionsIncreasing(cards, f);
    if cards != [] {
      var n := |cards| - 1;
      FilteredAtKeptPositions(cards[..n], f);
      KeptPositionsLength(cards[..n], f);
      KeptPositionsIncreasing(cards[..n], f);
    }
  }

  /**
   * Filtered(cards, f) is the subsequence of cards at exactly the positions
   * where f is false: those positions, in increasing order, pick out its
   * elements one by one.
   */
  lemma FilteredIsSubsequence(cards: seq<Card>, f: Card -> bool)
    ensures |Filtered(cards, f)| == |KeptPositions(cards, f)| <= |cards|
    ensures forall k :: 0 <= k < |KeptPositions(cards, f)| ==>
              KeptPositions(cards, f)[k] < |cards| && Filtered(cards, f)[k] == cards[KeptPositions(cards, f)[k]]
    ensures forall k, l :: 0 <= k < l < |KeptPositions(cards, f)| ==> KeptPositions(cards, f)[k] < KeptPositions(cards, f)[l]
    ensures forall i :: 0 <= i < |cards| ==> (i in KeptPositions(cards, f) <==> !f(cards[i]))
  {
    KeptPositionsLength(cards, f);
    KeptPositionsIncreasing(cards, f);
    KeptPositionsExact(cards, f);
    FilteredAtKeptPositions(cards, f);
  }

  /** A card is kept exactly when it is in the input and f rejects it; nothing is added. */
  lemma {:induction false} FilteredMembers(cards: seq<Card>, f: Card -> bool)
    ensures forall c :: c in Filtered(cards, f) <==> c in cards && !f(c)
  {
    if cards != [] {
      var n := |cards| - 1;
      FilteredMembers(cards[..n], f);
      assert cards == cards[..n] + [cards[n]];
    }
  }

  /** Filtering a concatenation filters each part. */
  lemma {:induction false} FilteredAppend(a: seq<Card>, b: seq<Card>, f: Card -> bool)
    ensures Filtered(a + b, f) == Filtered(a, f) + Filtered(b, f)
    decreases |b|
  {
    if b == [] {
      assert a + b == a;
    } else {
      var n := |b| - 1;
      var tail := if f(b[n]) then [] else [b[n]];
      assert (a + b)[..|a + b| - 1] == a + b[..n];
      assert (a + b)[|a + b| - 1] == b[n];
      FilteredAppend(a, b[..n], f);
      calc {
        Filtered(a + b, f);
        Filtered(a + b[..n], f) + tail;
        Filtered(a, f) + Filtered(b[..n], f) + tail;
        Filtered(a, f) + (Filtered(b[..n], f) + tail);
        Filtered(a, f) + Filtered(b, f);
      }
    }
  }

  /** When f rejects no card, filtering keeps the input as it is. */
  lemma {:induction false} FilteredNoneMatching(cards: seq<Card>, f: Card -> bool)
    requires forall i :: 0 <= i < |cards| ==> !f(cards[i])
    ensures Filtered(cards, f) == cards
  {
    if cards != [] {
      var n := |cards| - 1;
      var front, last := cards[..n], cards[n];
      assert !f(last);
      assert forall i :: 0 <= i < |front| ==> !f(front[i]);
      FilteredNoneMatching(front, f);
      assert cards == front + [last];
    }
  }

  /** The FilterOut(f) option applied to cards. */
  method FilterOut(f: Card -> bool, cards: seq<Card>) returns (ret: seq<Card>)
    ensures ret == Filtered(cards, f)
  {
    ret := [];
    for i := 0 to |cards|
      invariant ret == Filtered(cards[..i], f)
    {
      assert cards[..i + 1][..i] == cards[..i];
      if !f(cards[i]) {
        ret := ret + [cards[i]];
      }
    }
    assert cards[..|cards|] == cards;
  }

  // ---------------------------------------------------------------------------
  // AddJokers: n Jokers appended

  /** cards followed by n Joker cards (none when n is zero or negative). */
  function WithJokers(cards: seq<Card>, n: int): seq<Card>
    decreases n
  {
    if n <= 0 then cards else WithJokers(cards, n - 1) + [JokerCard]
  }

  /** The input is kept as a prefix and exactly max(n, 0) Jokers follow it. */
  lemma {:induction false} WithJokersShape(cards: seq<Card>, n: int)
    ensures |WithJokers(cards, n)| == |cards| + Max0(n)
    ensures WithJokers(cards, n)[..|cards|] == cards
    ensures forall i :: |cards| <= i < |WithJokers(cards, n)| ==> WithJokers(cards, n)[i] == JokerCard
    decreases n
  {
    if n > 0 {
      WithJokersShape(cards, n - 1);
      assert WithJokers(cards, n)[..|cards|] == WithJokers(cards, n - 1)[..|cards|];
    }
  }

  /** The AddJokers(n) option applied to cards. */
  method AddJokers(n: int, cards: seq<Card>) returns (ret: seq<Card>)
    ensures ret == WithJokers(cards, n)
  {
    ret := cards;
    var i := 0;
    while i < n
      invariant 0 <= i <= Max0(n)
      invariant ret == WithJokers(cards, i)
      decreases n - i
    {
      ret := ret + [JokerCard];
      i := i + 1;
    }
  }

  // ---------------------------------------------------------------------------
  // Shuffle: reorder by a permutation of the positions

  /** The positions 0, 1, ..., n - 1. */
  function Range(n: nat): seq<int>
  {
    seq(n, i => i)
  }

  /** perm holds each of 0, 1, ..., n - 1 exactly once, and nothing else. */
  ghost predicate IsPermutation(perm: seq<int>, n: nat) {
    && |perm| == n
    && (forall i :: 0 <= i < |perm| ==> 0 <= perm[i] < n)
    && multiset(perm) == multiset(Range(n))
  }

  /** Holding each position exactly once already rules out any other entry. */
  lemma PermutationInRange(perm: seq<int>, n: nat)
    requires multiset(perm) == multiset(Range(n))
    ensures |perm| == n
    ensures IsPermutation(perm, n)
  {
    assert |multiset(perm)| == |multiset(Range(n))|;
    forall i | 0 <= i < |perm|
      ensures 0 <= perm[i] < n
    {
      assert perm[i] in multiset(perm);
      assert perm[i] in Range(n);
    }
  }

  /** The cards at the positions perm lists, in perm's order. */
  function Permuted(cards: seq<Card>, perm: seq<int>): seq<Card>
    requires forall i :: 0 <= i < |perm| ==> 0 <= perm[i] < |cards|
  {
    seq(|perm|, i requires 0 <= i < |perm| => cards[perm[i]])
  }

  /** Taking the entry n out of a permutation of 0..n leaves a permutation of 0..n-1. */
  lemma RemoveLargest(perm: seq<int>, n: nat) returns (j: nat)
    requires multiset(perm) == multiset(Range(n + 1))
    ensures j < |perm| && perm[j] == n
    ensures multiset(perm[..j] + perm[j + 1..]) == multiset(Range(n))
  {
    assert Range(n + 1) == Range(n) + [n];
    assert n in multiset(perm);
    j :| 0 <= j < |perm| && perm[j] == n;
    var rest := perm[..j] + perm[j + 1..];
    assert perm == perm[..j] + [n] + perm[j + 1..];
    assert multiset(perm) == multiset(rest) + multiset{n};
    assert multiset(rest) == multiset(perm) - multiset{n};
    assert multiset(Range(n)) == multiset(Range(n + 1)) - multiset{n};
  }

  /** Reordering by perm is reordering by perm without its entry j, with the card at perm[j] put back at j. */
  lemma PermutedWithout(cards: seq<Card>, perm: seq<int>, j: nat)
    requires cards != [] && IsPermutation(perm, |cards|)
    requires j < |perm| && perm[j] == |cards| - 1
    requires IsPermutation(perm[..j] + perm[j + 1..], |cards| - 1)
    ensures multiset(Permuted(cards, perm)) == multiset(Permuted(cards[..|cards| - 1], perm[..j] + perm[j + 1..])) + multiset{cards[|cards| - 1]}
  {
    var n := |cards| - 1;
    var whole, part := Permuted(cards, perm), Permuted(cards[..n], perm[..j] + perm[j + 1..]);
    assert whole == part[..j] + [cards[n]] + part[j..];
    assert part == part[..j] + part[j..];
  }

  /** Reordering by a permutation keeps every card with its multiplicity. */
  lemma {:induction false} PermutedMultiset(cards: seq<Card>, perm: seq<int>)
    requires IsPermutation(perm, |cards|)
    ensures multiset(Permuted(cards, perm)) == multiset(cards)
    decreases |cards|
  {
    if cards != [] {
      var n := |cards| - 1;
      var j := RemoveLargest(perm, n);
      var rest := perm[..j] + perm[j + 1..];
      PermutationInRange(rest, n);
      PermutedMultiset(cards[..n], rest);
      PermutedWithout(cards, perm, j);
      assert cards == cards[..n] + [cards[n]];
    }
  }

  /**
   * Shuffle with perm standing for the permutation the shared random source
   * draws: position i of the result holds the input's card at perm[i].
   */
  method Shuffle(cards: seq<Card>, perm: seq<int>) returns (ret: seq<Card>)
    requires IsPermutation(perm, |cards|)
    ensures |ret| == |cards|
    ensures forall i :: 0 <= i < |ret| ==> ret[i] == cards[perm[i]]
    ensures multiset(ret) == multiset(cards)
  {
    var a := new Card[|cards|];
    for i := 0 to |perm|
      invariant forall k :: 0 <= k < i ==> a[k] == cards[perm[k]]
    {
      a[i] := cards[perm[i]];
    }
    ret := a[..];
    assert ret == Permuted(cards, perm);
    PermutedMultiset(cards, perm);
  }

  // ---------------------------------------------------------------------------
  // Sort and DefaultSort: in-place sort by a comparator

  /** No card of s sorts strictly before a card that precedes it. */
  ghost predicate SortedBy(less: (Card, Card) -> bool, s: seq<Card>) {
    forall i, j :: 0 <= i < j < |s| ==> !less(s[j], s[i])
  }

  /** Exchanges two elements of a. */
  method Swap(a: array<Card>, i: int, j: int)
    requires 0 <= i < a.Length && 0 <= j < a.Length
    modifies a
    ensures a[i] == old(a[j]) && a[j] == old(a[i])
    ensures forall k :: 0 <= k < a.Length && k != i && k != j ==> a[k] == old(a[k])
    ensures multiset(a[..]) == old(multiset(a[..]))
  {
    a[i], a[j] := a[j], a[i];
  }

  /**
   * The Sort(less) option applied to the cards of a, in place: afterwards a
   * holds the same cards, ordered by less. Insertion sort stands for the
   * library sort; no stability is claimed.
   */
  method Sort(less: (Card, Card) -> bool, a: array<Card>)
    requires StrictWeakOrder(less)
    modifies a
    ensures SortedBy(less, a[..])
    ensures multiset(a[..]) == old(multiset(a[..]))
  {
    for i := 0 to a.Length
      invariant SortedBy(less, a[..i])
      invariant multiset(a[..]) == old(multiset(a[..]))
    {
      var j := i;
      while 0 < j && less(a[j], a[j - 1])
        invariant 0 <= j <= i
        invariant forall k, l :: 0 <= k < l <= i && k != j && l != j ==> !less(a[l], a[k])
        invariant forall l :: j < l <= i ==> less(a[j], a[l])
        invariant multiset(a[..]) == old(multiset(a[..]))
        decreases j
      {
        Swap(a, j - 1, j);
        j := j - 1;
      }
    }
    assert a[..a.Length] == a[..];
  }

  /** DefaultSort: Sort by the default comparator Less. */
  method DefaultSort(a: array<Card>)
    modifies a
    ensures SortedBy(Less, a[..])
    ensures multiset(a[..]) == old(multiset(a[..]))
  {
    LessIsStrictWeakOrder();
    Sort(Less, a);
  }

  /**
   * Sorting the Two of Diamonds and the King of Spades by Less, in either
   * order, puts the King of Spades first: its value is 12, the Two's is 13.
   */
  lemma DefaultSortTwoCards(s: seq<Card>)
    requires multiset(s) == multiset([Card(Diamond, Two), Card(Spade, King)])
    requires SortedBy(Less, s)
    ensures s == [Card(Spade, King), Card(Diamond, Two)]
  {
    assert |s| == 2;
    assert s[0] in multiset(s) && s[1] in multiset(s);
  }

  /** DefaultSort on the Two of Diamonds and the King of Spades leaves the King first. */
  method DefaultSortTwoCardsExample() returns (first: Card)
    ensures first == Card(Spade, King)
  {
    var a := new Card[2];
    a[0], a[1] := Card(Diamond, Two), Card(Spade, King);
    assert a[..] == [Card(Diamond, Two), Card(Spade, King)];
    DefaultSort(a);
    DefaultSortTwoCards(a[..]);
    first := a[0];
  }
}
