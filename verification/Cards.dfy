/** The cards that travel between the services. `HIDDEN` is the face-down
    hole card; every other card of the model has one of the thirteen ranks. */
module Cards {
  datatype Suit = Hearts | Diamonds | Clubs | Spades | HiddenSuit

  datatype Rank =
    | Ace | Two | Three | Four | Five | Six | Seven
    | Eight | Nine | Ten | Jack | Queen | King | HiddenRank

  datatype Card = Card(suit: Suit, rank: Rank)

  const HIDDEN := Card(HiddenSuit, HiddenRank)

  predicate Real(c: Card) {
    c.suit != HiddenSuit && c.rank != HiddenRank
  }

  predicate AllReal(cards: seq<Card>) {
    forall i :: 0 <= i < |cards| ==> Real(cards[i])
  }
}
