/** Cards: suits, ranks, the rank-to-value table, card equality and the short
    textual form of a card (src/models/Card.ts). */
module Cards {

  datatype Suit = Hearts | Diamonds | Clubs | Spades

  datatype Rank = Two | Three | Four | Five | Six | Seven | Eight | Nine | Ten
                | Jack | Queen | King | Ace

  /** The suits in the order the deck is built. */
  const SuitOrder: seq<Suit> := [Hearts, Diamonds, Clubs, Spades]

  /** The ranks from lowest to highest, the order the deck is built. */
  const RankOrder: seq<Rank> := [Two, Three, Four, Five, Six, Seven, Eight, Nine, Ten,
                                 Jack, Queen, King, Ace]

  /** The fixed table of createCard: 2..10 by face, J = 11, Q = 12, K = 13, A = 14. */
  function RankValue(r: Rank): int {
    match r
    case Two => 2
    case Three => 3
    case Four => 4
    case Five => 5
    case Six => 6
    case Seven => 7
    case Eight => 8
    case Nine => 9
    case Ten => 10
    case Jack => 11
    case Queen => 12
    case King => 13
    case Ace => 14
  }

  /** A card. Its comparison value is the rank's entry in the table; createCard is
      the only way the engine builds a card, so the value never disagrees with the rank. */
  datatype Card = Card(suit: Suit, rank: Rank) {
    const value: int := RankValue(rank)
  }

  /** createCard(suit, rank). */
  function CreateCard(suit: Suit, rank: Rank): (c: Card)
    ensures c.suit == suit && c.rank == rank
    ensures 2 <= c.value <= 14
  {
    Card(suit, rank)
  }

  /** The position of a suit in SuitOrder. */
  function SuitIndex(s: Suit): (i: nat)
    ensures i < |SuitOrder| && SuitOrder[i] == s
  {
    match s
    case Hearts => 0
    case Diamonds => 1
    case Clubs => 2
    case Spades => 3
  }

  /** The position of a rank in RankOrder. */
  function RankIndex(r: Rank): (i: nat)
    ensures i < |RankOrder| && RankOrder[i] == r
    ensures RankValue(r) == i + 2
  {
    match r
    case Two => 0
    case Three => 1
    case Four => 2
    case Five => 3
    case Six => 4
    case Seven => 5
    case Eight => 6
    case Nine => 7
    case Ten => 8
    case Jack => 9
    case Queen => 10
    case King => 11
    case Ace => 12
  }

  /** The table follows the rank order, one step per rank: it is injective and
      strictly increasing from 2 to A. */
  lemma RankValueOrder(i: nat, j: nat)
    requires i < j < |RankOrder|
    ensures RankValue(RankOrder[i]) == i + 2 && RankValue(RankOrder[j]) == j + 2
    ensures RankValue(RankOrder[i]) < RankValue(RankOrder[j])
  {
    assert RankIndex(RankOrder[i]) == i by { RankOrderInjective(RankIndex(RankOrder[i]), i); }
    assert RankIndex(RankOrder[j]) == j by { RankOrderInjective(RankIndex(RankOrder[j]), j); }
  }

  lemma RankOrderInjective(i: nat, j: nat)
    requires i < |RankOrder| && j < |RankOrder| && RankOrder[i] == RankOrder[j]
    ensures i == j
  {
  }

  lemma SuitOrderInjective(i: nat, j: nat)
    requires i < |SuitOrder| && j < |SuitOrder| && SuitOrder[i] == SuitOrder[j]
    ensures i == j
  {
  }

  lemma RankValueInjective(r1: Rank, r2: Rank)
    requires RankValue(r1) == RankValue(r2)
    ensures r1 == r2
  {
    RankOrderInjective(RankIndex(r1), RankIndex(r2));
  }

  /** The predicate `card => card.suit === suit`, shared by every filter on suits. */
  function SuitIs(s: Suit): Card -> bool {
    (c: Card) => c.suit == s
  }

  /** The predicate `card => card.rank === rank`. */
  function RankIs(r: Rank): Card -> bool {
    (c: Card) => c.rank == r
  }

  /** cardsEqual: the same suit and the same rank. */
  function CardsEqual(a: Card, b: Card): (eq: bool)
    ensures eq <==> a == b
  {
    a.suit == b.suit && a.rank == b.rank
  }

  lemma CardsEqualReflexiveSymmetric(a: Card, b: Card)
    ensures CardsEqual(a, a)
    ensures CardsEqual(a, b) == CardsEqual(b, a)
  {
  }

  function RankName(r: Rank): string {
    match r
    case Two => "2"
    case Three => "3"
    case Four => "4"
    case Five => "5"
    case Six => "6"
    case Seven => "7"
    case Eight => "8"
    case Nine => "9"
    case Ten => "10"
    case Jack => "J"
    case Queen => "Q"
    case King => "K"
    case Ace => "A"
  }

  function SuitName(s: Suit): string {
    match s
    case Hearts => "hearts"
    case Diamonds => "diamonds"
    case Clubs => "clubs"
    case Spades => "spades"
  }

  /** String.prototype.toUpperCase on one character, for the ASCII letters. */
  function UpperAscii(ch: char): char {
    if 'a' <= ch <= 'z' then (ch as int - 32) as char else ch
  }

  /** cardToString: the rank's name followed by the upper-cased first letter of the suit. */
  function CardToString(c: Card): (s: string)
    ensures |s| == |RankName(c.rank)| + 1 && s == RankName(c.rank) + [s[|s| - 1]]
    ensures s[|s| - 1] == match c.suit
                          case Hearts => 'H'
                          case Diamonds => 'D'
                          case Clubs => 'C'
                          case Spades => 'S'
  {
    RankName(c.rank) + [UpperAscii(SuitName(c.suit)[0])]
  }

  /** Different cards have different strings: the last letter gives the suit and
      the rest gives the rank. */
  lemma CardToStringInjective(a: Card, b: Card)
    requires CardToString(a) == CardToString(b)
    ensures a == b
  {
    var s := CardToString(a);
    assert s[|s| - 1] == CardToString(b)[|s| - 1];
    assert a.suit == b.suit;
    assert RankName(a.rank) == s[..|s| - 1] == RankName(b.rank);
    match a.rank {
      case Two => {} case Three => {} case Four => {} case Five => {} case Six => {}
      case Seven => {} case Eight => {} case Nine => {} case Ten => {} case Jack => {}
      case Queen => {} case King => {} case Ace => {}
    }
  }
}
