/**
  `distributeCards` of game.js: the shuffled deck is handed out one card at a
  time, clockwise, starting with the seat after the distributor.
*/
module Deal {
  import opened Cards
  import opened Seats

  /** The hands, keyed by seat like the source's `hands` object. */
  type Hands = map<Seat, seq<Card>>

  /** Every seat has a hand (possibly empty). */
  ghost predicate HasAllSeats(hands: Hands) {
    forall p: Seat :: p in hands
  }

  /** The seat that receives `deck[i]` when `d` distributes: `((d + i) % 6) + 1`. */
  function DealSeat(d: Seat, i: nat): Seat {
    (d + i) % 6 + 1
  }

  /** Card `i` goes `i + 1` steps clockwise from the distributor, so each card goes to
      the seat after the one that received the card before it. */
  lemma DealSeatClockwise(d: Seat, i: nat)
    ensures DealSeat(d, i) == SeatAfter(d, i + 1)
    ensures DealSeat(d, 0) == NextSeat(d)
    ensures DealSeat(d, i + 1) == NextSeat(DealSeat(d, i))
  {
    SeatAfterClosedForm(d, i + 1);
    SeatAfterClosedForm(d, i + 2);
  }

  /** Where seat `p` stands in the dealing order of distributor `d`:
      `p` receives `deck[o]`, `deck[o + 6]`, `deck[o + 12]`, ... */
  function DealOffset(d: Seat, p: Seat): (o: nat)
    ensures o < 6
  {
    if p > d then p - d - 1 else p - d + 5
  }

  /** Seat `p` receives the card at its own offset. */
  lemma DealOffsetSeat(d: Seat, p: Seat)
    ensures DealSeat(d, DealOffset(d, p)) == p
  {
    ModSixSmall(d + DealOffset(d, p));
  }

  /** Card `i` goes to the seat whose offset is `i % 6`. */
  lemma DealOffsetOfDealSeat(d: Seat, i: nat)
    ensures DealOffset(d, DealSeat(d, i)) == i % 6
    ensures DealSeat(d, i) == DealSeat(d, i % 6)
  {
    var r := i % 6;
    assert i == 6 * (i / 6) + r;
    ModSixShift(d + r, i / 6);
    ModSixSmall(d + r);
  }

  /** All the cards held in the six hands, counted with multiplicity. */
  ghost function HandsMultiset(hands: Hands): multiset<Card>
    requires HasAllSeats(hands)
  {
    multiset(hands[1]) + multiset(hands[2]) + multiset(hands[3]) +
    multiset(hands[4]) + multiset(hands[5]) + multiset(hands[6])
  }

  /** Replacing one hand changes the whole by exactly the cards that hand lost and gained. */
  lemma HandsMultisetUpdate(hands: Hands, p: Seat, hand: seq<Card>)
    requires HasAllSeats(hands)
    ensures HandsMultiset(hands[p := hand]) + multiset(hands[p]) == HandsMultiset(hands) + multiset(hand)
  {
    var h := hands[p := hand];
    assert forall q: Seat :: q != p ==> h[q] == hands[q];
  }

  /** Adding one card to one hand adds exactly that card to the whole. */
  lemma HandsMultisetPush(hands: Hands, p: Seat, c: Card)
    requires HasAllSeats(hands)
    ensures HandsMultiset(hands[p := hands[p] + [c]]) == HandsMultiset(hands) + multiset{c}
  {
    HandsMultisetUpdate(hands, p, hands[p] + [c]);
    assert multiset(hands[p] + [c]) == multiset(hands[p]) + multiset{c};
  }

  /** `hand.splice(i, 1)`: the hand without its card at index `i`, the others in order. */
  function RemoveAt(hand: seq<Card>, i: nat): (r: seq<Card>)
    requires i < |hand|
    ensures |r| == |hand| - 1
    ensures forall k :: 0 <= k < i ==> r[k] == hand[k]
    ensures forall k :: i <= k < |r| ==> r[k] == hand[k + 1]
    ensures multiset(r) + multiset{hand[i]} == multiset(hand)
  {
    assert hand == hand[..i] + [hand[i]] + hand[i + 1..];
    hand[..i] + hand[i + 1..]
  }

  /** Taking the card at index `i` out of one hand removes exactly that card from the whole. */
  lemma HandsMultisetRemove(hands: Hands, p: Seat, i: nat)
    requires HasAllSeats(hands) && i < |hands[p]|
    ensures HandsMultiset(hands[p := RemoveAt(hands[p], i)]) + multiset{hands[p][i]} == HandsMultiset(hands)
  {
    HandsMultisetUpdate(hands, p, RemoveAt(hands[p], i));
  }

  /** After `n` cards are dealt by `d`, seat `p` with offset `o` holds one card for
      each index below `n` that leaves remainder `o` modulo six: the next card it is
      owed, `deck[6 * |hand| + o]`, is among the six after the first `n`. */
  ghost predicate DealtSizes(d: Seat, n: nat, hands: Hands)
    requires HasAllSeats(hands)
  {
    forall p: Seat :: n <= 6 * |hands[p]| + DealOffset(d, p) < n + 6
  }

  /** Seat `p` holds `deck[o]`, `deck[o + 6]`, ... in that order, all below `n`. */
  ghost predicate DealtOrder(deck: seq<Card>, d: Seat, n: nat, hands: Hands)
    requires HasAllSeats(hands) && n <= |deck|
  {
    forall p: Seat, k :: 0 <= k < |hands[p]| ==>
      6 * k + DealOffset(d, p) < n && hands[p][k] == deck[6 * k + DealOffset(d, p)]
  }

  /** The state of the hands after the first `n` cards of `deck` were dealt by `d`. */
  ghost predicate DealtUpTo(deck: seq<Card>, d: Seat, n: nat, hands: Hands)
    requires n <= |deck|
  {
    && HasAllSeats(hands)
    && DealtSizes(d, n, hands)
    && DealtOrder(deck, d, n, hands)
    && HandsMultiset(hands) == multiset(deck[..n])
  }

  /** Two numbers less than six apart with the same remainder modulo six are equal. */
  lemma SameResidue(x: nat, n: nat)
    requires n <= x < n + 6 && x % 6 == n % 6
    ensures x == n
  {
    assert x == 6 * (x / 6) + x % 6;
    assert n == 6 * (n / 6) + n % 6;
  }

  /** The seat that receives card `n` is the only one whose offset is `n % 6`. */
  lemma DealOffsetUnique(d: Seat, n: nat, q: Seat)
    ensures DealOffset(d, q) == n % 6 <==> q == DealSeat(d, n)
  {
    DealOffsetOfDealSeat(d, n);
    if DealOffset(d, q) == n % 6 {
      DealOffsetSeat(d, q);
    }
  }

  /** Card `n` goes to the one seat whose next owed index is exactly `n`. */
  lemma DealtReceiver(d: Seat, n: nat, hands: Hands, q: Seat)
    requires HasAllSeats(hands) && DealtSizes(d, n, hands)
    ensures 6 * |hands[q]| + DealOffset(d, q) == n <==> q == DealSeat(d, n)
  {
    var o := DealOffset(d, q);
    var x := 6 * |hands[q]| + o;
    ModSixShift(o, |hands[q]|);
    DealOffsetUnique(d, n, q);
    if q == DealSeat(d, n) {
      SameResidue(x, n);
    }
  }

  lemma DealtSizesStep(d: Seat, n: nat, hands: Hands, c: Card)
    requires HasAllSeats(hands) && DealtSizes(d, n, hands)
    ensures var p := DealSeat(d, n); var h := hands[p := hands[p] + [c]];
            HasAllSeats(h) && DealtSizes(d, n + 1, h)
  {
    var p := DealSeat(d, n);
    var h := hands[p := hands[p] + [c]];
    forall q: Seat
      ensures n + 1 <= 6 * |h[q]| + DealOffset(d, q) < n + 7
    {
      DealtReceiver(d, n, hands, q);
    }
  }

  lemma DealtOrderStep(deck: seq<Card>, d: Seat, n: nat, hands: Hands)
    requires HasAllSeats(hands) && n < |deck|
    requires DealtSizes(d, n, hands) && DealtOrder(deck, d, n, hands)
    ensures var p := DealSeat(d, n); var h := hands[p := hands[p] + [deck[n]]];
            HasAllSeats(h) && DealtOrder(deck, d, n + 1, h)
  {
    DealtReceiver(d, n, hands, DealSeat(d, n));
  }

  lemma DealtMultisetStep(deck: seq<Card>, n: nat, hands: Hands, p: Seat)
    requires HasAllSeats(hands) && n < |deck|
    requires HandsMultiset(hands) == multiset(deck[..n])
    ensures HandsMultiset(hands[p := hands[p] + [deck[n]]]) == multiset(deck[..n + 1])
  {
    HandsMultisetPush(hands, p, deck[n]);
    assert deck[..n + 1] == deck[..n] + [deck[n]];
  }

  /** One step of the deal: card `n` of the deck goes to the back of seat `DealSeat(d, n)`'s hand. */
  function DealOne(deck: seq<Card>, d: Seat, n: nat, hands: Hands): Hands
    requires n < |deck| && DealSeat(d, n) in hands
  {
    hands[DealSeat(d, n) := hands[DealSeat(d, n)] + [deck[n]]]
  }

  /** Dealing card `n` to `DealSeat(d, n)` extends the dealt state by one card. */
  lemma DealtStep(deck: seq<Card>, d: Seat, n: nat, hands: Hands)
    requires n < |deck| && DealtUpTo(deck, d, n, hands)
    ensures DealtUpTo(deck, d, n + 1, DealOne(deck, d, n, hands))
  {
    DealtSizesStep(d, n, hands, deck[n]);
    DealtOrderStep(deck, d, n, hands);
    DealtMultisetStep(deck, n, hands, DealSeat(d, n));
  }

  /** Quotient and remainder of a deck index by six. */
  lemma DeckIndexSplit(i: nat)
    requires i < TotalCards
    ensures i / 6 < CardsPerPlayer && i == 6 * (i / 6) + i % 6
  {
  }

  /** A full deal leaves eight cards with every seat. */
  lemma DealtSizesFull(d: Seat, hands: Hands, p: Seat)
    requires HasAllSeats(hands) && DealtSizes(d, TotalCards, hands)
    ensures |hands[p]| == CardsPerPlayer
  {
  }

  /** Once all the cards are dealt, the hands hold the whole deck. */
  lemma FullDealMultiset(deck: seq<Card>, n: nat, hands: Hands)
    requires n == |deck| && HasAllSeats(hands) && HandsMultiset(hands) == multiset(deck[..n])
    ensures HandsMultiset(hands) == multiset(deck)
  {
    assert deck[..n] == deck;
  }

  /** The empty hands every deal starts from. */
  function EmptyHands(): (hands: Hands)
    ensures HasAllSeats(hands) && forall p: Seat :: hands[p] == []
  {
    map[1 := [], 2 := [], 3 := [], 4 := [], 5 := [], 6 := []]
  }

  lemma DealtNone(deck: seq<Card>, d: Seat)
    ensures DealtUpTo(deck, d, 0, EmptyHands())
  {
    var h := EmptyHands();
    assert deck[..0] == [];
    assert HandsMultiset(h) == multiset{};
  }

  /** Seat `p`'s hand after a whole deal by `d`: `deck[o]`, `deck[o + 6]`, ... for its offset `o`. */
  function DealtHand(deck: seq<Card>, d: Seat, p: Seat): (hand: seq<Card>)
    requires |deck| == TotalCards
    ensures |hand| == CardsPerPlayer
  {
    seq(CardsPerPlayer, k requires 0 <= k < CardsPerPlayer => deck[6 * k + DealOffset(d, p)])
  }

  /** The six hands after a whole deal by `d`. */
  function DealtHands(deck: seq<Card>, d: Seat): (hands: Hands)
    requires |deck| == TotalCards
    ensures HasAllSeats(hands) && forall p: Seat :: hands[p] == DealtHand(deck, d, p)
  {
    map[1 := DealtHand(deck, d, 1), 2 := DealtHand(deck, d, 2), 3 := DealtHand(deck, d, 3),
        4 := DealtHand(deck, d, 4), 5 := DealtHand(deck, d, 5), 6 := DealtHand(deck, d, 6)]
  }

  /** Card `i` of the deck goes to seat `((d + i) % 6) + 1`, at position `i / 6` of its hand. */
  lemma DealtHandsPlaced(deck: seq<Card>, d: Seat, i: nat)
    requires |deck| == TotalCards && i < |deck|
    ensures i / 6 < CardsPerPlayer && DealtHands(deck, d)[DealSeat(d, i)][i / 6] == deck[i]
  {
    DealOffsetOfDealSeat(d, i);
    DeckIndexSplit(i);
  }

  /** With a deck of distinct cards, a card is dealt to its own seat and to no other. */
  lemma DealtOnlyTo(deck: seq<Card>, d: Seat, i: nat, p: Seat)
    requires IsDeck(deck) && i < |deck|
    requires deck[i] in DealtHands(deck, d)[p]
    ensures p == DealSeat(d, i)
  {
    var hand := DealtHands(deck, d)[p];
    var k :| 0 <= k < |hand| && hand[k] == deck[i];
    var o := DealOffset(d, p);
    assert i == 6 * k + o by {
      assert 6 * k + o < TotalCards && deck[6 * k + o] == deck[i];
    }
    assert i % 6 == o by { ModSixShift(o, k); }
    DealOffsetUnique(d, i, p);
  }

  lemma DealtHandEqual(deck: seq<Card>, d: Seat, hands: Hands, p: Seat)
    requires |deck| == TotalCards && HasAllSeats(hands)
    requires DealtSizes(d, TotalCards, hands) && DealtOrder(deck, d, TotalCards, hands)
    ensures hands[p] == DealtHand(deck, d, p)
  {
    DealtSizesFull(d, hands, p);
    var hand := DealtHand(deck, d, p);
    forall k | 0 <= k < CardsPerPlayer
      ensures hands[p][k] == hand[k]
    {
    }
  }

  /** A deal that placed every card where `DealtOrder` says is the deal `DealtHands`. */
  lemma DealtAllEqual(deck: seq<Card>, d: Seat, hands: Hands)
    requires |deck| == TotalCards && HasAllSeats(hands)
    requires DealtSizes(d, TotalCards, hands) && DealtOrder(deck, d, TotalCards, hands)
    ensures hands == DealtHands(deck, d)
  {
    var full := DealtHands(deck, d);
    forall p: Seat
      ensures hands[p] == full[p]
    {
      DealtHandEqual(deck, d, hands, p);
    }
    SameHands(hands, full);
  }

  /** Two maps holding a hand for every seat are equal when they agree seat by seat. */
  lemma SameHands(a: Hands, b: Hands)
    requires HasAllSeats(a) && HasAllSeats(b) && forall p: Seat :: a[p] == b[p]
    ensures a == b
  {
    assert forall p: Seat :: p in a <==> p in b;
  }

  /** Every card of the deck lands in exactly one hand: the six hands together are the deck. */
  lemma DealtHandsMultiset(deck: seq<Card>, d: Seat)
    requires |deck| == TotalCards
    ensures HandsMultiset(DealtHands(deck, d)) == multiset(deck)
  {
    var hands := EmptyHands();
    var n := 0;
    DealtNone(deck, d);
    while n < TotalCards
      invariant n <= TotalCards && DealtUpTo(deck, d, n, hands)
    {
      DealtStep(deck, d, n, hands);
      hands := DealOne(deck, d, n, hands);
      n := n + 1;
    }
    FullDealMultiset(deck, n, hands);
    DealtAllEqual(deck, d, hands);
  }

  /** The dealing loop: `playerIndex` steps clockwise from the distributor, taking one card each step. */
  method DistributeCards(deck: seq<Card>, distributor: Seat) returns (hands: Hands)
    requires |deck| == TotalCards
    ensures hands == DealtHands(deck, distributor)
    ensures HandsMultiset(hands) == multiset(deck)
  {
    hands := EmptyHands();
    var cardIndex := 0;
    var playerIndex: Seat := distributor;
    DealtNone(deck, distributor);
    while cardIndex < TotalCards
      invariant 0 <= cardIndex <= TotalCards
      invariant playerIndex == SeatAfter(distributor, cardIndex)
      invariant DealtUpTo(deck, distributor, cardIndex, hands)
    {
      DealSeatClockwise(distributor, cardIndex);
      playerIndex := NextSeat(playerIndex);
      DealtStep(deck, distributor, cardIndex, hands);
      hands := hands[playerIndex := hands[playerIndex] + [deck[cardIndex]]];
      cardIndex := cardIndex + 1;
    }
    FullDealMultiset(deck, cardIndex, hands);
    DealtAllEqual(deck, distributor, hands);
  }
}
