/**
  The card model of game.js: four suits, twelve faces (there is no 2), the
  trick-comparison rank of a face, and the few whole-game constants.
*/
module Cards {

  const TotalPlayers: nat := 6
  const CardsPerPlayer: nat := 8
  const TotalCards: nat := 48
  const RoundsPerGame: nat := 8

  datatype Suit = Hearts | Diamonds | Clubs | Spades

  /** The twelve faces of the deck, in the order the deck is built (A first, no 2). */
  datatype Face = Ace | Three | Four | Five | Six | Seven | Eight | Nine | Ten | Jack | Queen | King

  datatype Card = Card(suit: Suit, face: Face)

  /** The trick-comparison rank of a face: 3 is lowest (1), A is highest (12). */
  function FaceRank(f: Face): (r: int)
    ensures 1 <= r <= 12
    ensures r == 12 <==> f == Ace
    ensures r == 1 <==> f == Three
  {
    match f
    case Three => 1
    case Four => 2
    case Five => 3
    case Six => 4
    case Seven => 5
    case Eight => 6
    case Nine => 7
    case Ten => 8
    case Jack => 9
    case Queen => 10
    case King => 11
    case Ace => 12
  }

  function CardRank(c: Card): int {
    FaceRank(c.face)
  }

  /** Two distinct faces never share a rank, so two cards of one suit never tie. */
  lemma FaceRankInjective(f: Face, g: Face)
    ensures FaceRank(f) == FaceRank(g) ==> f == g
  {
  }

  /** Within one suit, equal rank means the same card. */
  lemma SameSuitSameRankSameCard(c: Card, d: Card)
    requires c.suit == d.suit && CardRank(c) == CardRank(d)
    ensures c == d
  {
    FaceRankInjective(c.face, d.face);
  }

  /** The display order of suits used when a hand is sorted. */
  function SuitOrder(s: Suit): (r: int)
    ensures 0 <= r <= 3
  {
    match s
    case Hearts => 0
    case Spades => 1
    case Diamonds => 2
    case Clubs => 3
  }

  lemma SuitOrderInjective(s: Suit, t: Suit)
    ensures SuitOrder(s) == SuitOrder(t) ==> s == t
  {
  }

  /** `hand.some(c => c.suit === s)`: the hand holds a card of suit `s`. */
  predicate HoldsSuit(hand: seq<Card>, s: Suit) {
    exists i :: 0 <= i < |hand| && hand[i].suit == s
  }

  /** A deck as the dealer receives it: the 48 cards, none repeated. */
  ghost predicate IsDeck(deck: seq<Card>) {
    |deck| == TotalCards && forall i, j :: 0 <= i < j < |deck| ==> deck[i] != deck[j]
  }
}
