/**
  The host's game state and the operations that change it: starting a game,
  playing a card, revealing the hidden card, completing a trick and settling
  the points at the end of a game.
*/
module Game {
  import opened Options
  import opened Cards
  import opened Seats
  import opened Deal
  import opened Rules
  import opened Scoring

  /** The cards of a trick, counted seat by seat over seats 1..k. */
  ghost function TrickCards(played: map<Seat, Card>, k: nat): multiset<Card>
    requires k <= TotalPlayers
    decreases k
  {
    if k == 0 then multiset{}
    else TrickCards(played, k - 1) + (if k in played then multiset{played[k]} else multiset{})
  }

  /** The cards of a sequence of completed tricks. */
  ghost function TricksCards(tricks: seq<map<Seat, Card>>): multiset<Card>
    decreases |tricks|
  {
    if |tricks| == 0 then multiset{}
    else TricksCards(tricks[..|tricks| - 1]) + TrickCards(tricks[|tricks| - 1], TotalPlayers)
  }

  /** Completing one more trick adds exactly its cards. */
  lemma TricksCardsAppend(tricks: seq<map<Seat, Card>>, trick: map<Seat, Card>)
    ensures TricksCards(tricks + [trick]) == TricksCards(tricks) + TrickCards(trick, TotalPlayers)
  {
    assert (tricks + [trick])[..|tricks|] == tricks;
  }

  lemma {:induction false} TrickCardsEmpty(k: nat)
    requires k <= TotalPlayers
    ensures TrickCards(map[], k) == multiset{}
    decreases k
  {
    if k > 0 {
      TrickCardsEmpty(k - 1);
    }
  }

  /** One step of `TrickCards`: seat `k`'s card, if any, is added to those of seats 1..k-1. */
  lemma TrickCardsUnfold(played: map<Seat, Card>, k: nat)
    requires 0 < k <= TotalPlayers
    ensures TrickCards(played, k) == TrickCards(played, k - 1) + (if k in played then multiset{played[k]} else multiset{})
  {
  }

  lemma MultisetSwap(a: multiset<Card>, b: multiset<Card>, c: multiset<Card>)
    ensures a + b + c == a + c + b
  {
  }

  /** If recording `c` for seat `p` added it to seats 1..k-1 exactly when `p < k`, it does so for seats 1..k too. */
  lemma TrickCardsInsertStep(played: map<Seat, Card>, p: Seat, c: Card, k: nat)
    requires 0 < k <= TotalPlayers && p !in played
    requires TrickCards(played[p := c], k - 1) == TrickCards(played, k - 1) + (if p <= k - 1 then multiset{c} else multiset{})
    ensures TrickCards(played[p := c], k) == TrickCards(played, k) + (if p <= k then multiset{c} else multiset{})
  {
    var m := played[p := c];
    var before := TrickCards(played, k - 1);
    var added := if p <= k - 1 then multiset{c} else multiset{};
    var own := if k in played then multiset{played[k]} else multiset{};
    var ownM := if k in m then multiset{m[k]} else multiset{};
    TrickCardsUnfold(m, k);
    TrickCardsUnfold(played, k);
    if k == p {
      assert ownM == multiset{c} && own == multiset{} && added == multiset{};
    } else {
      assert ownM == own;
      MultisetSwap(before, added, own);
    }
  }

  /** Recording the card of a seat that had not played adds exactly that card. */
  lemma {:induction false} TrickCardsInsert(played: map<Seat, Card>, p: Seat, c: Card, k: nat)
    requires k <= TotalPlayers && p !in played
    ensures TrickCards(played[p := c], k) == TrickCards(played, k) + (if p <= k then multiset{c} else multiset{})
    decreases k
  {
    if k > 0 {
      TrickCardsInsert(played, p, c, k - 1);
      TrickCardsInsertStep(played, p, c, k);
    }
  }

  /**
    The first `n` seats clockwise from `leader` have played, and no other seat.
  */
  ghost predicate TrickShape(leader: Seat, n: nat, played: map<Seat, Card>) {
    forall k :: 0 <= k < TotalPlayers ==> (SeatAfter(leader, k) in played <==> k < n)
  }

  lemma TrickShapeEmpty(leader: Seat)
    ensures TrickShape(leader, 0, map[])
  {
  }

  /** The seat whose turn it is has not played yet, and playing extends the trick by one seat. */
  lemma TrickShapeStep(leader: Seat, n: nat, played: map<Seat, Card>, c: Card)
    requires n < TotalPlayers && TrickShape(leader, n, played)
    ensures SeatAfter(leader, n) !in played
    ensures TrickShape(leader, n + 1, played[SeatAfter(leader, n) := c])
  {
    var p := SeatAfter(leader, n);
    forall k | 0 <= k < TotalPlayers
      ensures SeatAfter(leader, k) in played[p := c] <==> k < n + 1
    {
      if k != n {
        SeatAfterInjective(leader, k, n);
      }
    }
  }

  /** In a trick of six plays every seat has played. */
  lemma TrickShapeFull(leader: Seat, played: map<Seat, Card>, q: Seat)
    requires TrickShape(leader, TotalPlayers, played)
    ensures q in played
  {
    var k := ClockwiseSteps(leader, q);
    assert SeatAfter(leader, k) in played;
  }

  /** The source's `roundState` object: whose turn it is and the trick on the table. */
  datatype RoundState = RoundState(currentTurn: Option<Seat>, cardsPlayed: map<Seat, Card>,
                                   baseSuit: Option<Suit>, roundComplete: bool)

  /** The round state of a trick about to be led by `first`. */
  function NewRound(first: Seat): (rs: RoundState)
    ensures TrickShape(first, 0, rs.cardsPlayed) && rs.currentTurn == Some(SeatAfter(first, 0)) && !rs.roundComplete
    ensures forall card: Card, hand: seq<Card> :: CanPlayCard(card, hand, rs.baseSuit)
  {
    RoundState(Some(first), map[], None, false)
  }

  /** Moving a played card from a hand to the table keeps the total. */
  lemma PlayKeepsTotal(h': multiset<Card>, c: Card, h: multiset<Card>, x: multiset<Card>,
                       t: multiset<Card>, y: multiset<Card>, m: multiset<Card>)
    requires h' + multiset{c} == h && h + x + t + y == m
    ensures h' + x + (t + multiset{c}) + y == m
  {
  }

  /** Moving the hidden card into a hand keeps the total. */
  lemma RevealKeepsTotal(h': multiset<Card>, c: Card, h: multiset<Card>,
                         t: multiset<Card>, y: multiset<Card>, m: multiset<Card>)
    requires h' == h + multiset{c} && h + multiset{c} + t + y == m
    ensures h' + multiset{} + t + y == m
  {
  }

  /** Moving a completed trick off the table keeps the total. */
  lemma CollectKeepsTotal(h: multiset<Card>, x: multiset<Card>, t: multiset<Card>,
                          y: multiset<Card>, m: multiset<Card>)
    requires h + x + t + y == m
    ensures h + x + multiset{} + (y + t) == m
  {
  }


  /** The host's whole game state as one value; `leader`, `trickSize` and `tricks` are bookkeeping of the model. */
  datatype State = State(
    deck: seq<Card>, hands: Hands,
    team1Points: nat, team2Points: nat, team1Rounds: nat, team2Rounds: nat,
    currentDistributor: Option<Seat>, nextDistributor: Option<Seat>, currentRound: nat,
    gameStarted: bool, gameCompleted: bool, gameWinnerTeam: Option<Team>,
    hiddenCard: Option<Card>, superSuit: Option<Suit>, hiddenCardOpened: bool,
    firstMoverTeam: Option<Team>, roundState: RoundState,
    leader: Seat, trickSize: nat, tricks: seq<map<Seat, Card>>)

  ghost predicate PointsInRange(s: State) {
    s.team1Points < Rollover && s.team2Points < Rollover
  }

  /** The hidden card while it is still face down. */
  ghost function HiddenPart(s: State): multiset<Card>
    requires s.hiddenCard.Some?
  {
    if s.hiddenCardOpened then multiset{} else multiset{s.hiddenCard.value}
  }

  /** Every card of the deck is in a hand, face down, on the table or in a completed trick. */
  ghost predicate Conserved(s: State) {
    && HasAllSeats(s.hands) && s.hiddenCard.Some?
    && HandsMultiset(s.hands) + HiddenPart(s) + TrickCards(s.roundState.cardsPlayed, TotalPlayers) + TricksCards(s.tricks)
       == multiset(s.deck)
  }

  /** Once a game is dealt, no card is lost or made up. */
  ghost predicate CardsAccounted(s: State) {
    s.gameStarted ==> Conserved(s)
  }

  /** What a started game fixed when it was dealt. */
  ghost predicate Setup(s: State) {
    && s.currentDistributor.Some?
    && HasAllSeats(s.hands)
    && s.firstMoverTeam == Some(TeamOf(NextSeat(s.currentDistributor.value)))
    && |s.deck| == TotalCards
    && s.hiddenCard.Some?
    && s.superSuit == (if s.hiddenCardOpened then Some(s.hiddenCard.value.suit) else None)
  }

  /** The current trick was led by `leader` and went clockwise; the led suit is the leader's suit. */
  ghost predicate TrickState(s: State) {
    var rs := s.roundState;
    && s.trickSize <= TotalPlayers
    && |rs.cardsPlayed| == s.trickSize
    && TrickShape(s.leader, s.trickSize, rs.cardsPlayed)
    && (s.trickSize == 0 <==> rs.baseSuit.None?)
    && (s.trickSize > 0 ==> s.leader in rs.cardsPlayed && rs.baseSuit == Some(rs.cardsPlayed[s.leader].suit))
  }

  /** A game in progress: undecided, one trick counted per round before this one. */
  ghost predicate InPlay(s: State)
    requires s.firstMoverTeam.Some?
  {
    && 1 <= s.currentRound
    && s.team1Rounds + s.team2Rounds + 1 == s.currentRound
    && GameWinner(s.firstMoverTeam.value, s.team1Rounds, s.team2Rounds).None?
    && s.gameWinnerTeam.None?
    && (s.roundState.roundComplete <==> s.trickSize == TotalPlayers)
    && s.roundState.currentTurn ==
         (if s.roundState.roundComplete then None else Some(SeatAfter(s.leader, s.trickSize)))
  }

  /** A decided game: the recorded winner is the one the trick counts declare. */
  ghost predicate Finished(s: State)
    requires s.firstMoverTeam.Some?
  {
    && s.trickSize == 0
    && s.roundState.roundComplete
    && s.roundState.currentTurn.None?
    && s.team1Rounds + s.team2Rounds == s.currentRound
    && s.gameWinnerTeam.Some?
    && GameWinner(s.firstMoverTeam.value, s.team1Rounds, s.team2Rounds) == s.gameWinnerTeam
    && s.nextDistributor.Some?
  }

  /** The invariant of the host's state between two operations, apart from the card count. */
  ghost predicate Consistent(s: State) {
    && PointsInRange(s)
    && (!s.gameStarted ==> s.roundState.currentTurn.None? && !s.roundState.roundComplete && !s.gameCompleted)
    && (s.gameStarted ==>
          && Setup(s) && TrickState(s)
          && (if s.gameCompleted then Finished(s) else InPlay(s)))
  }

  /**
    `startGame`: a fresh deal of `newDeck` by `distributor`, with the card at
    `hiddenIndex` of the first player's hand put face down; points carry over.
  */
  function Started(s: State, newDeck: seq<Card>, distributor: Seat, hiddenIndex: nat): State
    requires |newDeck| == TotalCards && hiddenIndex < CardsPerPlayer
  {
    var first := NextSeat(distributor);
    var dealt := DealtHands(newDeck, distributor);
    s.(currentDistributor := Some(distributor), deck := newDeck,
       hands := dealt[first := RemoveAt(dealt[first], hiddenIndex)],
       currentRound := 1, gameStarted := true, gameCompleted := false, gameWinnerTeam := None,
       team1Rounds := 0, team2Rounds := 0, superSuit := None, hiddenCardOpened := false,
       firstMoverTeam := Some(TeamOf(first)), hiddenCard := Some(dealt[first][hiddenIndex]),
       roundState := NewRound(first), leader := first, trickSize := 0, tricks := [])
  }

  /** `saveSelectedCard`: the card at `cardIndex` of `p`'s hand is played. */
  function Play(s: State, p: Seat, card: Card, cardIndex: nat): State
    requires p in s.hands && cardIndex < |s.hands[p]|
  {
    if s.gameCompleted then s
    else
      var rs := s.roundState;
      var baseSuit := if rs.baseSuit.None? then Some(card.suit) else rs.baseSuit;
      var rs1 := rs.(baseSuit := baseSuit, cardsPlayed := rs.cardsPlayed[p := card]);
      var rs2 := if |rs1.cardsPlayed| == TotalPlayers then rs1.(roundComplete := true, currentTurn := None)
                 else rs1.(currentTurn := Some(NextSeat(p)));
      s.(roundState := rs2, hands := s.hands[p := RemoveAt(s.hands[p], cardIndex)], trickSize := s.trickSize + 1)
  }

  /** `openHiddenCard`: the hidden card's suit becomes the super suit and the card joins the first player's hand. */
  function Reveal(s: State): State
    requires s.hiddenCard.Some? && s.currentDistributor.Some? && NextSeat(s.currentDistributor.value) in s.hands
  {
    var first := NextSeat(s.currentDistributor.value);
    s.(superSuit := Some(s.hiddenCard.value.suit), hiddenCardOpened := true,
       hands := s.hands[first := s.hands[first] + [s.hiddenCard.value]])
  }

  /** `endGame`: the game is recorded as won by `winner` and the ladder is settled. */
  function Ended(s: State, winner: Team): State
    requires s.currentDistributor.Some?
  {
    var st := Settle(s.team1Points, s.team2Points, winner);
    s.(gameCompleted := true, gameWinnerTeam := Some(winner),
       roundState := s.roundState.(roundComplete := true),
       team1Points := st.team1Points, team2Points := st.team2Points,
       nextDistributor := Some(DetermineNextDistributor(s.currentDistributor.value, winner, st.triggered)))
  }

  /** Whether `endGame` tells the clients to show the rollover popup, with the corrected test. */
  function ClientPopup(s: State): bool
    requires s.currentDistributor.Some?
  {
    s.nextDistributor.Some? && RolloverSignal(s.currentDistributor.value, s.nextDistributor.value)
  }

  /** The same signal with the test game.js uses: the seat numbers differ by more than one. */
  function ClientPopupAsWritten(s: State): (r: bool)
    requires s.currentDistributor.Some?
    ensures ClientPopup(s) ==> r
  {
    if s.nextDistributor.Some? then
      RolloverSignalAsWrittenCovers(s.currentDistributor.value, s.nextDistributor.value);
      RolloverSignalAsWritten(s.currentDistributor.value, s.nextDistributor.value)
    else false
  }

  /** The first half of `completeRound`: credit the trick to `w`'s team and clear the table. */
  ghost function Credited(s: State, w: Seat): State {
    var t1 := s.team1Rounds + (if TeamOf(w) == Team1 then 1 else 0);
    var t2 := s.team2Rounds + (if TeamOf(w) == Team2 then 1 else 0);
    s.(team1Rounds := t1, team2Rounds := t2,
       roundState := s.roundState.(cardsPlayed := map[], baseSuit := None, roundComplete := false),
       trickSize := 0, tricks := s.tricks + [s.roundState.cardsPlayed])
  }

  /** The second half of `completeRound`: end a decided game, else hand the lead to `w` unless eight rounds are done. */
  function Advance(c: State, w: Seat): State
    requires c.firstMoverTeam.Some? && c.currentDistributor.Some?
  {
    var g := GameWinner(c.firstMoverTeam.value, c.team1Rounds, c.team2Rounds);
    if g.Some? then Ended(c, g.value)
    else if c.currentRound >= RoundsPerGame then c
    else c.(currentRound := c.currentRound + 1, roundState := c.roundState.(currentTurn := Some(w)), leader := w)
  }

  /** `completeRound`: credit the trick, clear the table, then end the game or hand the lead to the winner. */
  ghost function Complete(s: State): State
    requires s.roundState.cardsPlayed != map[] && s.firstMoverTeam.Some? && s.currentDistributor.Some?
  {
    var w := RoundWinner(s.roundState.cardsPlayed, s.superSuit, s.roundState.baseSuit);
    Advance(Credited(s, w), w)
  }

  /** The state before the first game. */
  function Initial(): State {
    State([], map[], 0, 0, 0, 0, None, None, 0, false, false, None, None, None, false, None,
          RoundState(None, map[], None, false), 1, 0, [])
  }

  lemma InitialConsistent()
    ensures Consistent(Initial())
  {
  }

  /** The hidden card is card `6 * hiddenIndex` of the deck: the first player receives every sixth card from the top. */
  lemma HiddenCardFromDeck(newDeck: seq<Card>, distributor: Seat, hiddenIndex: nat)
    requires |newDeck| == TotalCards && hiddenIndex < CardsPerPlayer
    ensures DealtHands(newDeck, distributor)[NextSeat(distributor)][hiddenIndex] == newDeck[TotalPlayers * hiddenIndex]
  {
    var i := TotalPlayers * hiddenIndex;
    DealtHandsPlaced(newDeck, distributor, i);
    assert DealSeat(distributor, i) == DealSeat(distributor, 0) by {
      DealOffsetOfDealSeat(distributor, i);
    }
    DealSeatClockwise(distributor, 0);
  }

  /**
    After a deal the first player holds seven cards, everyone else eight, and
    the hands together with the face-down card are exactly the deck.
  */
  lemma StartedDeal(s: State, newDeck: seq<Card>, distributor: Seat, hiddenIndex: nat)
    requires |newDeck| == TotalCards && hiddenIndex < CardsPerPlayer
    ensures var t := Started(s, newDeck, distributor, hiddenIndex);
            var first := NextSeat(distributor);
            && HasAllSeats(t.hands)
            && t.hiddenCard == Some(newDeck[TotalPlayers * hiddenIndex])
            && |t.hands[first]| == CardsPerPlayer - 1
            && (forall p: Seat :: p != first ==> |t.hands[p]| == CardsPerPlayer)
            && HandsMultiset(t.hands) + multiset{t.hiddenCard.value} == multiset(newDeck)
  {
    var dealt := DealtHands(newDeck, distributor);
    HiddenCardFromDeck(newDeck, distributor, hiddenIndex);
    DealtHandsMultiset(newDeck, distributor);
    HandsMultisetRemove(dealt, NextSeat(distributor), hiddenIndex);
  }

  /** A fresh deal is consistent whenever the carried-over points are in range. */
  lemma StartedConsistent(s: State, newDeck: seq<Card>, distributor: Seat, hiddenIndex: nat)
    requires PointsInRange(s) && |newDeck| == TotalCards && hiddenIndex < CardsPerPlayer
    ensures Consistent(Started(s, newDeck, distributor, hiddenIndex))
  {
    var t := Started(s, newDeck, distributor, hiddenIndex);
    TrickShapeEmpty(t.leader);
  }

  /** A fresh deal accounts for every card of the new deck. */
  lemma StartedAccounted(s: State, newDeck: seq<Card>, distributor: Seat, hiddenIndex: nat)
    requires |newDeck| == TotalCards && hiddenIndex < CardsPerPlayer
    ensures CardsAccounted(Started(s, newDeck, distributor, hiddenIndex))
  {
    StartedDeal(s, newDeck, distributor, hiddenIndex);
    TrickCardsEmpty(TotalPlayers);
  }

  /**
    The seat whose turn it is has not played in this trick; playing moves one
    card from that hand to the table, so hand size plus cards played is unchanged.
  */
  lemma PlayMovesOneCard(s: State, p: Seat, card: Card, cardIndex: nat)
    requires Consistent(s) && s.roundState.currentTurn == Some(p)
    requires p in s.hands && cardIndex < |s.hands[p]| && s.hands[p][cardIndex] == card
    ensures var t := Play(s, p, card, cardIndex);
            && p !in s.roundState.cardsPlayed
            && t.roundState.cardsPlayed[p] == card
            && |t.hands[p]| + |t.roundState.cardsPlayed| == |s.hands[p]| + |s.roundState.cardsPlayed|
            && multiset(t.hands[p]) + multiset{card} == multiset(s.hands[p])
            && |t.roundState.cardsPlayed| <= TotalPlayers
  {
    TrickShapeStep(s.leader, s.trickSize, s.roundState.cardsPlayed, card);
  }

  /** Playing a legal card on one's turn keeps the state consistent. */
  lemma PlayConsistent(s: State, p: Seat, card: Card, cardIndex: nat)
    requires Consistent(s) && s.roundState.currentTurn == Some(p)
    requires p in s.hands && cardIndex < |s.hands[p]| && s.hands[p][cardIndex] == card
    ensures Consistent(Play(s, p, card, cardIndex))
  {
    var t := Play(s, p, card, cardIndex);
    TrickShapeStep(s.leader, s.trickSize, s.roundState.cardsPlayed, card);
    assert TrickState(t);
  }

  /**
    Playing on one's turn keeps a led suit and otherwise leads the played
    card's suit; the trick is complete exactly when every seat has played,
    and until then the turn passes to the next seat clockwise.
  */
  lemma PlayAdvances(s: State, p: Seat, card: Card, cardIndex: nat)
    requires Consistent(s) && s.gameStarted && !s.gameCompleted && s.roundState.currentTurn == Some(p)
    requires p in s.hands && cardIndex < |s.hands[p]| && s.hands[p][cardIndex] == card
    ensures var t := Play(s, p, card, cardIndex);
            && t.roundState.baseSuit == (if s.roundState.baseSuit.None? then Some(card.suit) else s.roundState.baseSuit)
            && (t.roundState.roundComplete <==> forall q: Seat :: q in t.roundState.cardsPlayed)
            && (t.roundState.roundComplete ==> t.roundState.currentTurn.None?)
            && (!t.roundState.roundComplete ==> t.roundState.currentTurn == Some(NextSeat(p)))
  {
    var t := Play(s, p, card, cardIndex);
    PlayConsistent(s, p, card, cardIndex);
    if t.roundState.roundComplete {
      forall q: Seat
        ensures q in t.roundState.cardsPlayed
      {
        TrickShapeFull(t.leader, t.roundState.cardsPlayed, q);
      }
    } else {
      assert SeatAfter(t.leader, t.trickSize) !in t.roundState.cardsPlayed;
    }
  }

  /** An accepted play moves the card from the player's hand to the table and touches no other card. */
  lemma PlayMovesCard(s: State, p: Seat, card: Card, cardIndex: nat)
    requires !s.gameCompleted && p in s.hands && cardIndex < |s.hands[p]|
    ensures var t := Play(s, p, card, cardIndex);
            && t.hands == s.hands[p := RemoveAt(s.hands[p], cardIndex)]
            && t.roundState.cardsPlayed == s.roundState.cardsPlayed[p := card]
            && t.hiddenCard == s.hiddenCard && t.hiddenCardOpened == s.hiddenCardOpened
            && t.tricks == s.tricks && t.deck == s.deck && t.gameStarted == s.gameStarted
  {
  }

  /** Playing a card that is not yet on the table moves it from the hand to the table. */
  lemma PlayAccounted(s: State, p: Seat, card: Card, cardIndex: nat)
    requires CardsAccounted(s) && s.gameStarted && p !in s.roundState.cardsPlayed
    requires p in s.hands && cardIndex < |s.hands[p]| && s.hands[p][cardIndex] == card
    ensures CardsAccounted(Play(s, p, card, cardIndex))
  {
    var t := Play(s, p, card, cardIndex);
    if !s.gameCompleted {
      var played := s.roundState.cardsPlayed;
      PlayMovesCard(s, p, card, cardIndex);
      TrickCardsInsert(played, p, card, TotalPlayers);
      HandsMultisetRemove(s.hands, p, cardIndex);
      PlayKeepsTotal(HandsMultiset(t.hands), card, HandsMultiset(s.hands), HiddenPart(s),
                     TrickCards(played, TotalPlayers), TricksCards(s.tricks), multiset(s.deck));
    }
  }

  /** `nextPlayer`: the selected card is played only on the player's own turn and only if it follows suit. */
  function PlayIfLegal(s: State, p: Seat, cardIndex: nat): State
    requires p in s.hands && cardIndex < |s.hands[p]|
  {
    var card := s.hands[p][cardIndex];
    if s.roundState.currentTurn == Some(p) && CanPlayCard(card, s.hands[p], s.roundState.baseSuit)
    then Play(s, p, card, cardIndex)
    else s
  }

  /**
    Through the gated path every move keeps both invariants, with no
    assumption on who asked: an out-of-turn or illegal request changes nothing.
  */
  lemma PlayIfLegalKeepsInvariants(s: State, p: Seat, cardIndex: nat)
    requires Consistent(s) && CardsAccounted(s) && p in s.hands && cardIndex < |s.hands[p]|
    ensures var t := PlayIfLegal(s, p, cardIndex);
            && Consistent(t) && CardsAccounted(t)
            && (t != s ==> s.roundState.currentTurn == Some(p) &&
                           CanPlayCard(s.hands[p][cardIndex], s.hands[p], s.roundState.baseSuit))
  {
    var card := s.hands[p][cardIndex];
    if s.roundState.currentTurn == Some(p) && CanPlayCard(card, s.hands[p], s.roundState.baseSuit) {
      assert s.gameStarted;
      PlayConsistent(s, p, card, cardIndex);
      PlayMovesOneCard(s, p, card, cardIndex);
      PlayAccounted(s, p, card, cardIndex);
    }
  }

  /** Revealing returns the face-down card to the first player's hand: the hands gain exactly that card. */
  lemma RevealReturnsHiddenCard(s: State)
    requires s.hiddenCard.Some? && s.currentDistributor.Some? && HasAllSeats(s.hands)
    ensures var t := Reveal(s);
            && HasAllSeats(t.hands)
            && HandsMultiset(t.hands) == HandsMultiset(s.hands) + multiset{s.hiddenCard.value}
            && |t.hands[NextSeat(s.currentDistributor.value)]| == |s.hands[NextSeat(s.currentDistributor.value)]| + 1
            && (forall q: Seat :: q != NextSeat(s.currentDistributor.value) ==> t.hands[q] == s.hands[q])
            && t.superSuit == Some(s.hiddenCard.value.suit) && t.hiddenCardOpened
  {
    HandsMultisetPush(s.hands, NextSeat(s.currentDistributor.value), s.hiddenCard.value);
  }

  /** Revealing, when `canOpenHiddenCard` allows it, keeps the state consistent. */
  lemma RevealConsistent(s: State, p: Seat)
    requires Consistent(s) && s.roundState.currentTurn == Some(p) && p in s.hands
    requires CanOpenHiddenCard(s.hands[p], s.roundState.baseSuit, s.hiddenCardOpened, s.hiddenCard)
    ensures s.currentDistributor.Some? && NextSeat(s.currentDistributor.value) in s.hands
    ensures Consistent(Reveal(s))
  {
  }

  /** Revealing moves the face-down card into a hand. */
  lemma RevealAccounted(s: State)
    requires CardsAccounted(s) && s.gameStarted && !s.hiddenCardOpened
    requires s.hiddenCard.Some? && s.currentDistributor.Some?
    ensures CardsAccounted(Reveal(s))
  {
    var t := Reveal(s);
    RevealReturnsHiddenCard(s);
    RevealKeepsTotal(HandsMultiset(t.hands), s.hiddenCard.value, HandsMultiset(s.hands),
                     TrickCards(s.roundState.cardsPlayed, TotalPlayers), TricksCards(s.tricks), multiset(s.deck));
  }

  /** Once revealed, the hidden card cannot be revealed again, whoever asks and whatever suit was led. */
  lemma RevealOncePerGame(s: State, hand: seq<Card>, baseSuit: Option<Suit>)
    requires s.hiddenCard.Some? && s.currentDistributor.Some? && NextSeat(s.currentDistributor.value) in s.hands
    ensures var t := Reveal(s);
            t.hiddenCardOpened && !CanOpenHiddenCard(hand, baseSuit, t.hiddenCardOpened, t.hiddenCard)
  {
  }

  /**
    Playing, crediting a trick and advancing (which includes ending the game)
    leave the hidden card and whether it was revealed as they were; only a new
    deal turns it face down again.
  */
  lemma HiddenCardOpenedPersists(s: State, p: Seat, card: Card, cardIndex: nat, w: Seat,
                                 newDeck: seq<Card>, distributor: Seat, hiddenIndex: nat)
    requires p in s.hands && cardIndex < |s.hands[p]|
    requires s.firstMoverTeam.Some? && s.currentDistributor.Some?
    requires |newDeck| == TotalCards && hiddenIndex < CardsPerPlayer
    ensures var t := Play(s, p, card, cardIndex); t.hiddenCardOpened == s.hiddenCardOpened && t.hiddenCard == s.hiddenCard
    ensures var t := Credited(s, w); t.hiddenCardOpened == s.hiddenCardOpened && t.hiddenCard == s.hiddenCard
    ensures var t := Advance(s, w); t.hiddenCardOpened == s.hiddenCardOpened && t.hiddenCard == s.hiddenCard
    ensures !Started(s, newDeck, distributor, hiddenIndex).hiddenCardOpened
  {
  }

  /**
    The host applies a client's reveal request without checking whether the
    card is already turned up; once its user accepts the prompt, a second
    request turns the hidden card up again and puts a second copy of it in the
    first player's hand: the cards no longer add up to the deck.
  */
  lemma RevealTwiceDuplicates(s: State)
    requires CardsAccounted(s) && s.gameStarted && !s.hiddenCardOpened && s.currentDistributor.Some?
    ensures !CardsAccounted(Reveal(Reveal(s)))
  {
    var c := s.hiddenCard.value;
    var t := Reveal(s);
    var u := Reveal(t);
    RevealReturnsHiddenCard(s);
    RevealReturnsHiddenCard(t);
    ExtraCopyBreaksTotal(HandsMultiset(s.hands), c, TrickCards(s.roundState.cardsPlayed, TotalPlayers),
                         TricksCards(s.tricks), multiset(s.deck));
  }

  /** A second copy of a card makes the total exceed what it was. */
  lemma ExtraCopyBreaksTotal(h: multiset<Card>, c: Card, t: multiset<Card>, y: multiset<Card>, m: multiset<Card>)
    requires h + multiset{c} + t + y == m
    ensures h + multiset{c} + multiset{c} + multiset{} + t + y != m
  {
    assert (h + multiset{c} + multiset{c} + multiset{} + t + y)[c] == m[c] + 1;
  }

  /** The host's reveal with the guard its own button has: a card already turned up is not turned up again. */
  function HostReveal(s: State): (t: State)
    requires s.hiddenCard.Some? && s.currentDistributor.Some? && NextSeat(s.currentDistributor.value) in s.hands
    ensures t.hiddenCardOpened && t.hiddenCard == s.hiddenCard
  {
    if s.hiddenCardOpened then s else Reveal(s)
  }

  /** The guarded reveal keeps every card accounted for, and a repeated request changes nothing. */
  lemma HostRevealAccounted(s: State)
    requires CardsAccounted(s) && s.hiddenCard.Some? && s.currentDistributor.Some?
    requires NextSeat(s.currentDistributor.value) in s.hands
    ensures CardsAccounted(HostReveal(s)) && HostReveal(HostReveal(s)) == HostReveal(s)
  {
    if !s.hiddenCardOpened && s.gameStarted {
      RevealAccounted(s);
    }
  }

  /** A complete trick holds six cards, one per seat. */
  lemma CompleteTrickFull(s: State)
    requires Consistent(s) && s.gameStarted && !s.gameCompleted && s.roundState.roundComplete
    ensures |s.roundState.cardsPlayed| == TotalPlayers
    ensures s.leader in s.roundState.cardsPlayed && s.roundState.baseSuit == Some(s.roundState.cardsPlayed[s.leader].suit)
    ensures s.firstMoverTeam.Some? && s.currentDistributor.Some?
  {
  }

  /**
    Completing a trick credits the team of the seat holding the top super-suit
    card, or the top card of the led suit when no super-suit card was played,
    and exactly one trick counter grows by one.
  */
  lemma CompleteCreditsWinner(s: State)
    requires Consistent(s) && s.gameStarted && !s.gameCompleted && s.roundState.roundComplete
    ensures s.roundState.cardsPlayed != map[] && s.firstMoverTeam.Some? && s.currentDistributor.Some?
    ensures var played := s.roundState.cardsPlayed;
            var w := RoundWinner(played, s.superSuit, s.roundState.baseSuit);
            var t := Complete(s);
            && (if s.superSuit.Some? && PlayedSuitUpTo(played, s.superSuit.value, TotalPlayers)
                then TopOfSuit(played, s.superSuit.value, w)
                else TopOfSuit(played, s.roundState.baseSuit.value, w))
            && t.team1Rounds + t.team2Rounds == s.team1Rounds + s.team2Rounds + 1
            && (TeamOf(w) == Team1 ==> t.team1Rounds == s.team1Rounds + 1)
            && (TeamOf(w) == Team2 ==> t.team2Rounds == s.team2Rounds + 1)
  {
    CompleteTrickFull(s);
    var w := RoundWinner(s.roundState.cardsPlayed, s.superSuit, s.roundState.baseSuit);
    RoundWinnerTakesTopCard(s.roundState.cardsPlayed, s.superSuit, s.roundState.baseSuit, s.leader);
    AdvanceKeepsCards(Credited(s, w), w);
  }

  /**
    While the game is undecided fewer than eight tricks have been credited, so
    the round limit of `completeRound` never stops a game: either a winner is
    declared or the next trick starts, led by the trick winner.
  */
  lemma CompleteDecides(s: State)
    requires Consistent(s) && s.gameStarted && !s.gameCompleted && s.roundState.roundComplete
    ensures s.roundState.cardsPlayed != map[] && s.firstMoverTeam.Some? && s.currentDistributor.Some?
    ensures var w := RoundWinner(s.roundState.cardsPlayed, s.superSuit, s.roundState.baseSuit);
            var t := Complete(s);
            var g := GameWinner(s.firstMoverTeam.value, t.team1Rounds, t.team2Rounds);
            && t.roundState.cardsPlayed == map[] && t.roundState.baseSuit.None?
            && (t.gameCompleted <==> g.Some?)
            && (g.Some? ==>
                  var st := Settle(s.team1Points, s.team2Points, g.value);
                  && t.gameWinnerTeam == g && t.roundState.roundComplete
                  && t.team1Points == st.team1Points && t.team2Points == st.team2Points
                  && t.nextDistributor == Some(DetermineNextDistributor(s.currentDistributor.value, g.value, st.triggered)))
            && (g.None? ==> s.currentRound < RoundsPerGame && t.currentRound == s.currentRound + 1
                            && t.roundState.currentTurn == Some(w) && !t.roundState.roundComplete)
  {
    CompleteTrickFull(s);
    var w := RoundWinner(s.roundState.cardsPlayed, s.superSuit, s.roundState.baseSuit);
    var c := Credited(s, w);
    var g := GameWinner(s.firstMoverTeam.value, c.team1Rounds, c.team2Rounds);
    assert c.roundState.cardsPlayed == map[] && c.roundState.baseSuit.None?;
    if g.Some? {
      assert Complete(s) == Ended(c, g.value);
    } else {
      UndecidedBound(s.firstMoverTeam.value, c.team1Rounds, c.team2Rounds);
      assert Complete(s) == c.(currentRound := c.currentRound + 1, roundState := c.roundState.(currentTurn := Some(w)), leader := w);
    }
  }

  /** Completing a trick keeps the state consistent, whether or not it ends the game. */
  lemma CompleteConsistent(s: State)
    requires Consistent(s) && s.gameStarted && !s.gameCompleted && s.roundState.roundComplete
    ensures s.roundState.cardsPlayed != map[] && s.firstMoverTeam.Some? && s.currentDistributor.Some?
    ensures Consistent(Complete(s))
  {
    CompleteTrickFull(s);
    var played := s.roundState.cardsPlayed;
    var w := RoundWinner(played, s.superSuit, s.roundState.baseSuit);
    var t1 := s.team1Rounds + (if TeamOf(w) == Team1 then 1 else 0);
    var t2 := s.team2Rounds + (if TeamOf(w) == Team2 then 1 else 0);
    var g := GameWinner(s.firstMoverTeam.value, t1, t2);
    var t := Complete(s);
    if g.Some? {
      SettleInRange(s.team1Points, s.team2Points, g.value);
      assert Finished(t);
    } else {
      UndecidedBound(s.firstMoverTeam.value, t1, t2);
      TrickShapeEmpty(w);
      assert InPlay(t);
    }
  }

  /** The second half of `completeRound` moves no card. */
  lemma AdvanceKeepsCards(c: State, w: Seat)
    requires c.firstMoverTeam.Some? && c.currentDistributor.Some?
    ensures var a := Advance(c, w);
            && a.hands == c.hands && a.deck == c.deck && a.gameStarted == c.gameStarted
            && a.hiddenCard == c.hiddenCard && a.hiddenCardOpened == c.hiddenCardOpened
            && a.roundState.cardsPlayed == c.roundState.cardsPlayed && a.tricks == c.tricks
            && a.team1Rounds == c.team1Rounds && a.team2Rounds == c.team2Rounds
  {
  }

  /** At the end of a game the clients are told to show the popup exactly when the settlement rolled over. */
  lemma EndedPopupExact(s: State, winner: Team)
    requires s.currentDistributor.Some?
    ensures ClientPopup(Ended(s, winner)) == Settle(s.team1Points, s.team2Points, winner).triggered
  {
    RolloverSignalExact(s.currentDistributor.value, winner, Settle(s.team1Points, s.team2Points, winner).triggered);
  }

  /**
    The test as written also fires without a rollover: seat 6 dealt, its team
    won from 0-0, and seat 1 deals next.
  */
  lemma EndedPopupAsWrittenFalsePositive()
    ensures var s := Initial().(currentDistributor := Some(6));
            !Settle(s.team1Points, s.team2Points, Team2).triggered && ClientPopupAsWritten(Ended(s, Team2))
  {
    RolloverSignalAsWrittenFalsePositive();
  }

  /** Completing a trick moves its cards from the table to the completed tricks. */
  lemma CompleteAccounted(s: State)
    requires CardsAccounted(s) && s.gameStarted
    requires s.roundState.cardsPlayed != map[] && s.firstMoverTeam.Some? && s.currentDistributor.Some?
    ensures CardsAccounted(Complete(s))
  {
    var played := s.roundState.cardsPlayed;
    var w := RoundWinner(played, s.superSuit, s.roundState.baseSuit);
    var c := Credited(s, w);
    TrickCardsEmpty(TotalPlayers);
    TricksCardsAppend(s.tricks, played);
    CollectKeepsTotal(HandsMultiset(s.hands), HiddenPart(s), TrickCards(played, TotalPlayers),
                      TricksCards(s.tricks), multiset(s.deck));
    assert Conserved(c);
    AdvanceKeepsCards(c, w);
  }

  class GameState {
    var deck: seq<Card>
    var hands: Hands
    var team1Points: nat
    var team2Points: nat
    var team1Rounds: nat
    var team2Rounds: nat
    var currentDistributor: Option<Seat>
    var nextDistributor: Option<Seat>
    var currentRound: nat
    var gameStarted: bool
    var gameCompleted: bool
    var gameWinnerTeam: Option<Team>
    var hiddenCard: Option<Card>
    var superSuit: Option<Suit>
    var hiddenCardOpened: bool
    var firstMoverTeam: Option<Team>
    var roundState: RoundState
    /** The seat that led the current trick. */
    ghost var leader: Seat
    /** How many cards the current trick holds. */
    ghost var trickSize: nat
    /** The tricks already completed in this game. */
    ghost var tricks: seq<map<Seat, Card>>

    /** The object's fields as one value. */
    ghost function Abstract(): State
      reads this
    {
      State(deck, hands, team1Points, team2Points, team1Rounds, team2Rounds,
            currentDistributor, nextDistributor, currentRound, gameStarted, gameCompleted, gameWinnerTeam,
            hiddenCard, superSuit, hiddenCardOpened, firstMoverTeam, roundState,
            leader, trickSize, tricks)
    }

    constructor ()
      ensures Abstract() == Initial()
    {
      deck := [];
      hands := map[];
      team1Points := 0;
      team2Points := 0;
      team1Rounds := 0;
      team2Rounds := 0;
      currentDistributor := None;
      nextDistributor := None;
      currentRound := 0;
      gameStarted := false;
      gameCompleted := false;
      gameWinnerTeam := None;
      hiddenCard := None;
      superSuit := None;
      hiddenCardOpened := false;
      firstMoverTeam := None;
      roundState := RoundState(None, map[], None, false);
      leader := 1;
      trickSize := 0;
      tricks := [];
    }

    /** Draw the distributor: `randomSeat` stands for the random seat of `setRandomDistributor`. */
    method SetRandomDistributor(randomSeat: Seat)
      modifies this`currentDistributor
      ensures currentDistributor == Some(randomSeat)
    {
      currentDistributor := Some(randomSeat);
    }

    /**
      Deal `newDeck` from the current distributor and put the card at
      `hiddenIndex` of the first player's hand face down.
    */
    method DealAndHide(newDeck: seq<Card>, hiddenIndex: nat)
      requires |newDeck| == TotalCards && hiddenIndex < CardsPerPlayer && currentDistributor.Some?
      modifies this`deck, this`hands, this`hiddenCard
      ensures var dealt := DealtHands(newDeck, currentDistributor.value);
              var first := NextSeat(currentDistributor.value);
              && deck == newDeck
              && hands == dealt[first := RemoveAt(dealt[first], hiddenIndex)]
              && hiddenCard == Some(dealt[first][hiddenIndex])
    {
      deck := newDeck;
      hands := DistributeCards(deck, currentDistributor.value);
      var firstPlayer := NextSeat(currentDistributor.value);
      hiddenCard := Some(hands[firstPlayer][hiddenIndex]);
      hands := hands[firstPlayer := RemoveAt(hands[firstPlayer], hiddenIndex)];
    }

    /** The fields `startGame` resets for a fresh game led by `firstPlayer`. */
    method ResetForNewGame(firstPlayer: Seat)
      modifies this`currentRound, this`gameStarted, this`gameCompleted, this`gameWinnerTeam,
               this`team1Rounds, this`team2Rounds, this`superSuit, this`hiddenCardOpened,
               this`firstMoverTeam, this`roundState, this`leader, this`trickSize, this`tricks
      ensures currentRound == 1 && gameStarted && !gameCompleted && gameWinnerTeam.None?
      ensures team1Rounds == 0 && team2Rounds == 0 && superSuit.None? && !hiddenCardOpened
      ensures firstMoverTeam == Some(TeamOf(firstPlayer)) && roundState == NewRound(firstPlayer)
      ensures leader == firstPlayer && trickSize == 0 && tricks == []
    {
      currentRound := 1;
      gameStarted := true;
      gameCompleted := false;
      gameWinnerTeam := None;
      team1Rounds := 0;
      team2Rounds := 0;
      superSuit := None;
      hiddenCardOpened := false;
      firstMoverTeam := Some(TeamOf(firstPlayer));
      roundState := NewRound(firstPlayer);
      leader, trickSize, tricks := firstPlayer, 0, [];
    }

    /**
      Deal a new game from `newDeck` (the shuffled deck) and put the card at
      `hiddenIndex` of the first player's hand face down. `randomSeat` is the
      distributor drawn when none is set yet.
    */
    method StartGame(newDeck: seq<Card>, hiddenIndex: nat, randomSeat: Seat)
      requires |newDeck| == TotalCards && hiddenIndex < CardsPerPlayer
      modifies this
      ensures var d := if old(currentDistributor).Some? then old(currentDistributor).value else randomSeat;
              Abstract() == Started(old(Abstract()), newDeck, d, hiddenIndex)
    {
      if currentDistributor.None? {
        SetRandomDistributor(randomSeat);
      }
      DealNewGame(newDeck, hiddenIndex);
    }

    /** Deal a new game from the current distributor. */
    method DealNewGame(newDeck: seq<Card>, hiddenIndex: nat)
      requires |newDeck| == TotalCards && hiddenIndex < CardsPerPlayer && currentDistributor.Some?
      modifies this
      ensures Abstract() == Started(old(Abstract()), newDeck, old(currentDistributor).value, hiddenIndex)
    {
      DealAndHide(newDeck, hiddenIndex);
      ResetForNewGame(NextSeat(currentDistributor.value));
    }

    /** The distributor of the next game when the last one set none: one seat on, or a drawn seat. */
    method RotateDistributor(randomSeat: Seat)
      modifies this`currentDistributor
      ensures currentDistributor ==
                Some(if old(currentDistributor).Some? then NextSeat(old(currentDistributor).value) else randomSeat)
    {
      if currentDistributor.Some? {
        currentDistributor := Some(NextSeat(currentDistributor.value));
      } else {
        SetRandomDistributor(randomSeat);
      }
    }

    /** Hand the deal to the successor the last game chose (or rotate), then deal. */
    method StartNextGame(newDeck: seq<Card>, hiddenIndex: nat, randomSeat: Seat)
      requires |newDeck| == TotalCards && hiddenIndex < CardsPerPlayer
      modifies this
      ensures var d := if old(nextDistributor).Some? then old(nextDistributor).value
                       else if old(currentDistributor).Some? then NextSeat(old(currentDistributor).value)
                       else randomSeat;
              Abstract() == Started(old(Abstract()).(nextDistributor := None), newDeck, d, hiddenIndex)
    {
      if nextDistributor.Some? {
        currentDistributor := nextDistributor;
        nextDistributor := None;
      } else {
        RotateDistributor(randomSeat);
      }
      StartGame(newDeck, hiddenIndex, randomSeat);
    }

    /**
      Play `card`, found at `cardIndex` of `playerId`'s hand. The first card of
      a trick sets the led suit; the sixth completes the trick. Whose turn it is
      and whether the card follows suit are checked by the caller, not here.
    */
    method SaveSelectedCard(playerId: Seat, card: Card, cardIndex: nat)
      requires playerId in hands && cardIndex < |hands[playerId]|
      modifies this`roundState, this`hands, this`trickSize
      ensures Abstract() == Play(old(Abstract()), playerId, card, cardIndex)
    {
      if gameCompleted {
        return;
      }
      var rs := roundState;
      if rs.baseSuit.None? {
        rs := rs.(baseSuit := Some(card.suit));
      }
      rs := rs.(cardsPlayed := rs.cardsPlayed[playerId := card]);
      hands := hands[playerId := RemoveAt(hands[playerId], cardIndex)];
      if |rs.cardsPlayed| == TotalPlayers {
        rs := rs.(roundComplete := true, currentTurn := None);
      } else {
        rs := rs.(currentTurn := Some(NextSeat(playerId)));
      }
      roundState := rs;
      trickSize := trickSize + 1;
    }

    /**
      Play the card `p` selected at `cardIndex`, but only on `p`'s turn and only
      if it follows suit; otherwise nothing happens.
    */
    method NextPlayer(p: Seat, cardIndex: nat)
      requires p in hands && cardIndex < |hands[p]|
      modifies this`roundState, this`hands, this`trickSize
      ensures Abstract() == PlayIfLegal(old(Abstract()), p, cardIndex)
    {
      if roundState.currentTurn != Some(p) {
        return;
      }
      var card := hands[p][cardIndex];
      if !CanPlayCard(card, hands[p], roundState.baseSuit) {
        return;
      }
      SaveSelectedCard(p, card, cardIndex);
    }

    /**
      Reveal the hidden card: its suit becomes the super suit and the card goes
      back to the first player's hand. Whether revealing is allowed is checked
      by the caller, not here.
    */
    method OpenHiddenCard()
      requires hiddenCard.Some? && currentDistributor.Some? && NextSeat(currentDistributor.value) in hands
      modifies this`superSuit, this`hiddenCardOpened, this`hands
      ensures Abstract() == Reveal(old(Abstract()))
    {
      superSuit := Some(hiddenCard.value.suit);
      hiddenCardOpened := true;
      var first := NextSeat(currentDistributor.value);
      hands := hands[first := hands[first] + [hiddenCard.value]];
    }

    /** Credit one trick to `winningTeam`. */
    method UpdateRoundsWon(winningTeam: Team)
      modifies this`team1Rounds, this`team2Rounds
      ensures team1Rounds == old(team1Rounds) + (if winningTeam == Team1 then 1 else 0)
      ensures team2Rounds == old(team2Rounds) + (if winningTeam == Team2 then 1 else 0)
    {
      if winningTeam == Team1 {
        team1Rounds := team1Rounds + 1;
      } else {
        team2Rounds := team2Rounds + 1;
      }
    }

    /**
      Settle the ladder for a game won by `winningTeam` and choose the next
      distributor.
    */
    method CalculateGamePoints(winningTeam: Team)
      requires currentDistributor.Some?
      modifies this`team1Points, this`team2Points, this`nextDistributor
      ensures var s := Settle(old(team1Points), old(team2Points), winningTeam);
              && team1Points == s.team1Points && team2Points == s.team2Points
              && nextDistributor == Some(DetermineNextDistributor(currentDistributor.value, winningTeam, s.triggered))
    {
      if winningTeam == Team1 {
        if team2Points == 0 {
          team1Points := team1Points + 5;
        } else {
          var red := Min(10, team2Points);
          team2Points := team2Points - red;
          team1Points := team1Points + red;
        }
      } else {
        if team1Points == 0 {
          team2Points := team2Points + 5;
        } else {
          var red := Min(10, team1Points);
          team1Points := team1Points - red;
          team2Points := team2Points + red;
        }
      }
      var triggered := false;
      if team1Points >= Rollover {
        team1Points := team1Points - Rollover;
        triggered := true;
      } else if team2Points >= Rollover {
        team2Points := team2Points - Rollover;
        triggered := true;
      }
      nextDistributor := Some(DetermineNextDistributor(currentDistributor.value, winningTeam, triggered));
    }

    /** Record the game as won by `winningTeam` and settle its points. */
    method EndGame(winningTeam: Team)
      requires currentDistributor.Some?
      modifies this`gameCompleted, this`gameWinnerTeam, this`roundState,
               this`team1Points, this`team2Points, this`nextDistributor
      ensures Abstract() == Ended(old(Abstract()), winningTeam)
    {
      RecordWinner(winningTeam);
      CalculateGamePoints(winningTeam);
    }

    /** Mark the game completed with `winningTeam` as its winner and the trick closed. */
    method RecordWinner(winningTeam: Team)
      modifies this`gameCompleted, this`gameWinnerTeam, this`roundState
      ensures gameCompleted && gameWinnerTeam == Some(winningTeam)
      ensures roundState == old(roundState).(roundComplete := true)
    {
      gameCompleted := true;
      gameWinnerTeam := Some(winningTeam);
      roundState := roundState.(roundComplete := true);
    }

    /** Credit the trick to `winner`'s team, keep it with the completed tricks and clear the table. */
    method CreditTrick(winner: Seat)
      modifies this`team1Rounds, this`team2Rounds, this`roundState, this`trickSize, this`tricks
      ensures Abstract() == Credited(old(Abstract()), winner)
    {
      UpdateRoundsWon(TeamOf(winner));
      tricks := tricks + [roundState.cardsPlayed];
      roundState := roundState.(cardsPlayed := map[], baseSuit := None, roundComplete := false);
      trickSize := 0;
    }

    /** End the game if the trick counts decide it; otherwise, within eight rounds, give `winner` the lead. */
    method AdvanceRound(winner: Seat)
      requires firstMoverTeam.Some? && currentDistributor.Some?
      modifies this`gameCompleted, this`gameWinnerTeam, this`roundState, this`team1Points, this`team2Points,
               this`nextDistributor, this`currentRound, this`leader
      ensures Abstract() == Advance(old(Abstract()), winner)
    {
      var gameWinner := GameWinner(firstMoverTeam.value, team1Rounds, team2Rounds);
      if gameWinner.Some? {
        EndGame(gameWinner.value);
        return;
      }
      if currentRound >= RoundsPerGame {
        return;
      }
      currentRound := currentRound + 1;
      roundState := roundState.(currentTurn := Some(winner));
      leader := winner;
    }

    /**
      Close a complete trick: credit its winner's team, clear the table, and
      either end the game or give the lead of the next trick to the winner.
    */
    method CompleteRound()
      requires roundState.cardsPlayed != map[] && firstMoverTeam.Some? && currentDistributor.Some?
      modifies this
      ensures Abstract() == Complete(old(Abstract()))
    {
      var winner := RoundWinner(roundState.cardsPlayed, superSuit, roundState.baseSuit);
      CreditTrick(winner);
      AdvanceRound(winner);
    }
  }
}
