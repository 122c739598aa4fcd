/**
  The pure rules of a trick and of a game: which card a player may play,
  when the hidden card may be revealed, who wins a trick and which team has
  won the game.
*/
module Rules {
  import opened Options
  import opened Cards
  import opened Seats

  /** Follow suit: once a base suit is led, a player holding it must play it. */
  function CanPlayCard(card: Card, hand: seq<Card>, baseSuit: Option<Suit>): (r: bool)
    ensures baseSuit.Some? && card.suit == baseSuit.value ==> r
    ensures r && baseSuit.Some? && card.suit != baseSuit.value ==>
              forall i :: 0 <= i < |hand| ==> hand[i].suit != baseSuit.value
  {
    if baseSuit.None? then true
    else if HoldsSuit(hand, baseSuit.value) then card.suit == baseSuit.value
    else true
  }

  /** A player who holds the led suit may play exactly the cards of that suit. */
  lemma FollowSuitForced(card: Card, hand: seq<Card>, b: Suit)
    requires HoldsSuit(hand, b)
    ensures CanPlayCard(card, hand, Some(b)) <==> card.suit == b
  {
  }

  /** Leading a trick, or being void in the led suit, leaves every card playable. */
  lemma FreePlay(card: Card, hand: seq<Card>, baseSuit: Option<Suit>)
    requires baseSuit.None? || forall i :: 0 <= i < |hand| ==> hand[i].suit != baseSuit.value
    ensures CanPlayCard(card, hand, baseSuit)
  {
  }

  /** A player with at least one card always has a legal play. */
  lemma SomeCardPlayable(hand: seq<Card>, baseSuit: Option<Suit>)
    requires |hand| > 0
    ensures exists i :: 0 <= i < |hand| && CanPlayCard(hand[i], hand, baseSuit)
  {
    if baseSuit.Some? && HoldsSuit(hand, baseSuit.value) {
      var i :| 0 <= i < |hand| && hand[i].suit == baseSuit.value;
      assert CanPlayCard(hand[i], hand, baseSuit);
    } else {
      assert CanPlayCard(hand[0], hand, baseSuit);
    }
  }

  /** The hidden card may be revealed by a player who cannot follow the led suit, once per game. */
  function CanOpenHiddenCard(hand: seq<Card>, baseSuit: Option<Suit>, hiddenCardOpened: bool,
                             hiddenCard: Option<Card>): (r: bool)
    ensures r ==> hiddenCard.Some? && !hiddenCardOpened
    ensures r ==> baseSuit.Some? && forall card: Card :: CanPlayCard(card, hand, baseSuit)
  {
    baseSuit.Some? && !HoldsSuit(hand, baseSuit.value) && !hiddenCardOpened && hiddenCard.Some?
  }

  /**
    Once a suit is led and the card is still face down, a player may reveal
    exactly when the follow-suit rule leaves them free to play any card at all.
  */
  lemma CanOpenExactlyWhenUnconstrained(hand: seq<Card>, b: Suit, hiddenCard: Option<Card>)
    ensures CanOpenHiddenCard(hand, Some(b), false, hiddenCard) <==>
              hiddenCard.Some? && forall card: Card :: CanPlayCard(card, hand, Some(b))
  {
    if HoldsSuit(hand, b) {
      var other := if b == Hearts then Spades else Hearts;
      assert !CanPlayCard(Card(other, Ace), hand, Some(b));
    }
  }

  /** A player allowed to reveal is free to play any card of the hand. */
  lemma OpenerPlaysFreely(card: Card, hand: seq<Card>, baseSuit: Option<Suit>, hiddenCard: Option<Card>)
    requires CanOpenHiddenCard(hand, baseSuit, false, hiddenCard)
    ensures CanPlayCard(card, hand, baseSuit)
  {
  }

  /** Seat `w` played a card of suit `s` and no card of that suit played in the trick ranks above it. */
  ghost predicate TopOfSuit(played: map<Seat, Card>, s: Suit, w: Seat) {
    && w in played && played[w].suit == s
    && forall q: Seat :: q in played && played[q].suit == s ==> CardRank(played[q]) <= CardRank(played[w])
  }

  /** Some seat at most `k` played a card of suit `s`. */
  ghost predicate PlayedSuitUpTo(played: map<Seat, Card>, s: Suit, k: int) {
    exists q: Seat :: q <= k && q in played && played[q].suit == s
  }

  /**
    The seat among 1..k holding the highest card of suit `s`; on equal ranks
    the lower seat is kept, as the stable sort over seat-ordered entries does.
  */
  function BestOfSuit(played: map<Seat, Card>, s: Suit, k: nat): (r: Option<Seat>)
    requires k <= TotalPlayers
    ensures r.None? <==> !PlayedSuitUpTo(played, s, k)
    ensures r.Some? ==> r.value <= k && r.value in played && played[r.value].suit == s
    ensures r.Some? ==> forall q: Seat :: q <= k && q in played && played[q].suit == s ==>
                          CardRank(played[q]) <= CardRank(played[r.value])
    ensures r.Some? ==> forall q: Seat :: q < r.value && q in played && played[q].suit == s ==>
                          CardRank(played[q]) < CardRank(played[r.value])
    decreases k
  {
    if k == 0 then None
    else
      var prev := BestOfSuit(played, s, k - 1);
      if k in played && played[k].suit == s && (prev.None? || CardRank(played[k]) > CardRank(played[prev.value]))
      then Some(k)
      else prev
  }

  /** The lowest-numbered seat among 1..k that played, the first key JavaScript enumerates. */
  function FirstSeat(played: map<Seat, Card>, k: nat): (r: Option<Seat>)
    requires k <= TotalPlayers
    ensures r.None? <==> forall q: Seat :: q <= k ==> q !in played
    ensures r.Some? ==> r.value <= k && r.value in played && forall q: Seat :: q < r.value ==> q !in played
    decreases k
  {
    if k == 0 then None
    else
      var prev := FirstSeat(played, k - 1);
      if prev.None? && k in played then Some(k) else prev
  }

  /**
    The trick winner: the highest super-suit card if one was played, else the
    highest card of the led suit, else the lowest seat that played.
  */
  function RoundWinner(played: map<Seat, Card>, superSuit: Option<Suit>, baseSuit: Option<Suit>): (w: Seat)
    requires played != map[]
    ensures w in played
    ensures superSuit.Some? && PlayedSuitUpTo(played, superSuit.value, TotalPlayers) ==>
              TopOfSuit(played, superSuit.value, w)
    ensures !(superSuit.Some? && PlayedSuitUpTo(played, superSuit.value, TotalPlayers)) &&
            baseSuit.Some? && PlayedSuitUpTo(played, baseSuit.value, TotalPlayers) ==>
              TopOfSuit(played, baseSuit.value, w)
  {
    var top := if superSuit.Some? then BestOfSuit(played, superSuit.value, TotalPlayers) else None;
    if top.Some? then top.value
    else
      var led := if baseSuit.Some? then BestOfSuit(played, baseSuit.value, TotalPlayers) else None;
      if led.Some? then led.value
      else
        FirstSeat(played, TotalPlayers).value
  }

  /**
    In a trick whose led suit is the leader's suit, the winner always holds
    the top super-suit card or, when no super-suit card was played, the top
    card of the led suit; the lowest-seat fallback is never reached.
  */
  lemma RoundWinnerTakesTopCard(played: map<Seat, Card>, superSuit: Option<Suit>, baseSuit: Option<Suit>,
                                leader: Seat)
    requires leader in played && baseSuit == Some(played[leader].suit)
    ensures var w := RoundWinner(played, superSuit, baseSuit);
            if superSuit.Some? && PlayedSuitUpTo(played, superSuit.value, TotalPlayers)
            then TopOfSuit(played, superSuit.value, w)
            else TopOfSuit(played, baseSuit.value, w)
  {
    assert PlayedSuitUpTo(played, baseSuit.value, TotalPlayers);
  }

  /**
    When no two seats played the same card, the top card of a suit is held
    by one seat only, so the order in which ties are broken never matters.
  */
  lemma TopOfSuitUnique(played: map<Seat, Card>, s: Suit, w1: Seat, w2: Seat)
    requires forall p: Seat, q: Seat :: p in played && q in played && p != q ==> played[p] != played[q]
    requires TopOfSuit(played, s, w1) && TopOfSuit(played, s, w2)
    ensures w1 == w2
  {
    if w1 != w2 {
      SameSuitSameRankSameCard(played[w1], played[w2]);
    }
  }

  /** Tricks a team needs to win the game: five for the team that moved first, four for the other. */
  function Target(firstMover: Team, t: Team): nat {
    if t == firstMover then 5 else 4
  }

  /** The game-winner test, checking the first mover's team first. */
  function GameWinner(firstMover: Team, team1Rounds: nat, team2Rounds: nat): (r: Option<Team>)
    ensures r == Some(Team1) ==> team1Rounds >= Target(firstMover, Team1)
    ensures r == Some(Team2) ==> team2Rounds >= Target(firstMover, Team2)
    ensures r.None? <==> team1Rounds < Target(firstMover, Team1) && team2Rounds < Target(firstMover, Team2)
  {
    if firstMover == Team1 then
      if team1Rounds >= 5 then Some(Team1)
      else if team2Rounds >= 4 then Some(Team2)
      else None
    else
      if team2Rounds >= 5 then Some(Team2)
      else if team1Rounds >= 4 then Some(Team1)
      else None
  }

  /** Eight tricks always decide the game: the targets sum to nine, so the tricks run out first. */
  lemma WinnerByEightTricks(firstMover: Team, team1Rounds: nat, team2Rounds: nat)
    requires team1Rounds + team2Rounds >= RoundsPerGame
    ensures GameWinner(firstMover, team1Rounds, team2Rounds).Some?
  {
  }

  /** While undecided, fewer than eight tricks have been played. */
  lemma UndecidedBound(firstMover: Team, team1Rounds: nat, team2Rounds: nat)
    requires GameWinner(firstMover, team1Rounds, team2Rounds).None?
    ensures team1Rounds + team2Rounds < RoundsPerGame
    ensures team1Rounds < Target(firstMover, Team1) && team2Rounds < Target(firstMover, Team2)
  {
  }

  /**
    Crediting one trick to an undecided game can only declare the team that
    took the trick.
  */
  lemma OnlyTrickTakerCanWin(firstMover: Team, team1Rounds: nat, team2Rounds: nat, t: Team)
    requires GameWinner(firstMover, team1Rounds, team2Rounds).None?
    ensures var r := if t == Team1 then GameWinner(firstMover, team1Rounds + 1, team2Rounds)
                     else GameWinner(firstMover, team1Rounds, team2Rounds + 1);
            r.None? || r == Some(t)
  {
  }
}
