/**
  The points ladder settled at the end of every game, and the succession of
  the distributor that it decides.
*/
module Scoring {
  import opened Seats

  /** The top of the ladder: a team reaching it is reduced by it again (a rollover). */
  const Rollover: nat := 32

  /** Team points after a game, and whether a rollover happened. */
  datatype Settlement = Settlement(team1Points: nat, team2Points: nat, triggered: bool)

  function Min(a: nat, b: nat): nat {
    if a <= b then a else b
  }

  /** Points the winner takes from a loser holding `loser` points; zero means a flat bonus instead. */
  function Stolen(loser: nat): nat {
    Min(10, loser)
  }

  /**
    The first half of the settlement: a winner facing a loser with no points
    gets a flat 5, otherwise it takes up to 10 of the loser's points.
  */
  function Steal(team1Points: nat, team2Points: nat, winner: Team): (nat, nat) {
    if winner == Team1 then
      if team2Points == 0 then (team1Points + 5, team2Points)
      else (team1Points + Stolen(team2Points), team2Points - Stolen(team2Points))
    else
      if team1Points == 0 then (team1Points, team2Points + 5)
      else (team1Points - Stolen(team1Points), team2Points + Stolen(team1Points))
  }

  /** The second half: team 1 is checked first, and at most one team is reduced. */
  function ApplyRollover(team1Points: nat, team2Points: nat): Settlement {
    if team1Points >= Rollover then Settlement(team1Points - Rollover, team2Points, true)
    else if team2Points >= Rollover then Settlement(team1Points, team2Points - Rollover, true)
    else Settlement(team1Points, team2Points, false)
  }

  /** The whole settlement of a game won by `winner`. */
  function Settle(team1Points: nat, team2Points: nat, winner: Team): Settlement {
    var (a, b) := Steal(team1Points, team2Points, winner);
    ApplyRollover(a, b)
  }

  /** The points of team `t` in a pair ordered (team 1, team 2). */
  function PointsOf(t: Team, team1Points: nat, team2Points: nat): nat {
    if t == Team1 then team1Points else team2Points
  }

  /** A loser with no points gives the winner a flat 5 and keeps 0. */
  lemma StealFlatBonus(team1Points: nat, team2Points: nat, winner: Team)
    requires PointsOf(OtherTeam(winner), team1Points, team2Points) == 0
    ensures var (a, b) := Steal(team1Points, team2Points, winner);
            PointsOf(winner, a, b) == PointsOf(winner, team1Points, team2Points) + 5 &&
            PointsOf(OtherTeam(winner), a, b) == 0
  {
  }

  /** Otherwise exactly min(10, loser's points) moves from the loser to the winner; the sum is unchanged. */
  lemma StealTransfer(team1Points: nat, team2Points: nat, winner: Team)
    requires PointsOf(OtherTeam(winner), team1Points, team2Points) > 0
    ensures var (a, b) := Steal(team1Points, team2Points, winner);
            var loser := PointsOf(OtherTeam(winner), team1Points, team2Points);
            var moved := if loser <= 10 then loser else 10;
            PointsOf(winner, a, b) == PointsOf(winner, team1Points, team2Points) + moved &&
            PointsOf(OtherTeam(winner), a, b) == loser - moved &&
            a + b == team1Points + team2Points
  {
  }

  /** Settling a game moves the points up by one bonus at most and down by one rollover at most. */
  lemma SettleSum(team1Points: nat, team2Points: nat, winner: Team)
    ensures var s := Settle(team1Points, team2Points, winner);
            var bonus := if PointsOf(OtherTeam(winner), team1Points, team2Points) == 0 then 5 else 0;
            s.team1Points + s.team2Points + (if s.triggered then Rollover else 0) ==
              team1Points + team2Points + bonus
  {
  }

  /** Points below 32 stay below 32, and only the winner can reach a rollover. */
  lemma SettleInRange(team1Points: nat, team2Points: nat, winner: Team)
    requires team1Points < Rollover && team2Points < Rollover
    ensures var s := Settle(team1Points, team2Points, winner);
            s.team1Points < Rollover && s.team2Points < Rollover
    ensures var s := Settle(team1Points, team2Points, winner);
            var (a, b) := Steal(team1Points, team2Points, winner);
            PointsOf(OtherTeam(winner), s.team1Points, s.team2Points) == PointsOf(OtherTeam(winner), a, b) &&
            (s.triggered <==> PointsOf(winner, a, b) >= Rollover) &&
            PointsOf(winner, s.team1Points, s.team2Points) ==
              PointsOf(winner, a, b) - (if s.triggered then Rollover else 0)
  {
  }

  /** The distributor of the next game: two seats on after a rollover, one seat on when the distributor's team won, else the same seat. */
  function DetermineNextDistributor(distributor: Seat, winner: Team, triggered: bool): (next: Seat)
    ensures triggered ==> next == SeatAfter(distributor, 2)
    ensures !triggered && winner == TeamOf(distributor) ==> next == SeatAfter(distributor, 1)
    ensures !triggered && winner != TeamOf(distributor) ==> next == distributor
  {
    if triggered then (distributor + 1) % 6 + 1
    else if winner == TeamOf(distributor) then distributor % 6 + 1
    else distributor
  }

  /**
    Without a rollover the next game is always dealt by the team that lost;
    a rollover hands the deal to the distributor's partner.
  */
  lemma NextDistributorTeam(distributor: Seat, winner: Team, triggered: bool)
    ensures var next := DetermineNextDistributor(distributor, winner, triggered);
            (!triggered ==> TeamOf(next) == OtherTeam(winner)) &&
            (triggered ==> TeamOf(next) == TeamOf(distributor))
  {
    var next := DetermineNextDistributor(distributor, winner, triggered);
    NeighboursAreOpponents(distributor);
    NeighboursAreOpponents(SeatAfter(distributor, 1));
    if !triggered && winner != TeamOf(distributor) {
      assert winner == OtherTeam(TeamOf(distributor)) by {
        if winner == Team1 { assert TeamOf(distributor) == Team2; } else { assert TeamOf(distributor) == Team1; }
      }
    }
  }

  /**
    The clients' test for "a rollover happened": the next distributor is more
    than one seat number away from the current one.
  */
  function RolloverSignalAsWritten(current: Seat, next: Seat): bool {
    next - current > 1 || current - next > 1
  }

  /** Seat 6 dealt, its team won without a rollover: seat 1 deals next and the test still fires. */
  lemma RolloverSignalAsWrittenFalsePositive()
    ensures !Settle(0, 0, Team2).triggered
    ensures DetermineNextDistributor(6, Team2, Settle(0, 0, Team2).triggered) == 1
    ensures RolloverSignalAsWritten(6, DetermineNextDistributor(6, Team2, Settle(0, 0, Team2).triggered))
  {
  }

  /** The intended test: the deal moved exactly two seats clockwise. */
  function RolloverSignal(current: Seat, next: Seat): bool {
    ClockwiseSteps(current, next) == 2
  }

  /** The corrected test fires exactly when the settlement reported a rollover. */
  lemma RolloverSignalExact(distributor: Seat, winner: Team, triggered: bool)
    ensures RolloverSignal(distributor, DetermineNextDistributor(distributor, winner, triggered)) == triggered
  {
    var next := DetermineNextDistributor(distributor, winner, triggered);
    var k := ClockwiseSteps(distributor, next);
    if triggered {
      if k != 2 { SeatAfterInjective(distributor, k, 2); }
    } else if winner == TeamOf(distributor) {
      if k == 2 { SeatAfterInjective(distributor, 1, 2); }
    } else {
      if k == 2 { SeatAfterInjective(distributor, 0, 2); }
    }
  }

  /** The test as written never misses a rollover: a move of two seats clockwise always differs by more than one. */
  lemma RolloverSignalAsWrittenCovers(current: Seat, next: Seat)
    ensures RolloverSignal(current, next) ==> RolloverSignalAsWritten(current, next)
  {
    if ClockwiseSteps(current, next) == 2 {
      assert next == NextSeat(NextSeat(current));
      if current == 5 {
        assert next == 1;
      } else if current == 6 {
        assert next == 2;
      } else {
        assert next == current + 2;
      }
    }
  }
}
