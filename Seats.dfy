/**
  Seats 1..6 around the table, the fixed two-team partition and clockwise
  rotation. Every rotation in game.js is `(s % 6) + 1`; `SeatAfter` is that
  step taken `k` times.
*/
module Seats {

  type Seat = s: int | 1 <= s <= 6 witness 1

  datatype Team = Team1 | Team2

  /** Team 1 holds seats 1, 3 and 5; team 2 holds seats 2, 4 and 6. */
  function TeamOf(s: Seat): (t: Team)
    ensures t == Team1 <==> s in {1, 3, 5}
    ensures t == Team2 <==> s in {2, 4, 6}
  {
    if s == 1 || s == 3 || s == 5 then Team1 else Team2
  }

  function OtherTeam(t: Team): Team {
    if t == Team1 then Team2 else Team1
  }

  /** The next seat clockwise. */
  function NextSeat(s: Seat): Seat {
    s % 6 + 1
  }

  /** The seat `k` clockwise steps after `s`: `NextSeat` applied `k` times. */
  function SeatAfter(s: Seat, k: nat): Seat
    decreases k
  {
    if k == 0 then s else NextSeat(SeatAfter(s, k - 1))
  }

  /** Adding whole multiples of six does not change a remainder modulo six. */
  lemma ModSixShift(a: int, q: int)
    ensures (a + 6 * q) % 6 == a % 6
  {
  }

  /** The remainder modulo six of a number below twelve. */
  lemma ModSixSmall(x: int)
    requires 0 <= x < 12
    ensures x % 6 == if x < 6 then x else x - 6
  {
  }

  /** The closed form of `k` clockwise steps. */
  lemma {:induction false} SeatAfterClosedForm(s: Seat, k: nat)
    ensures SeatAfter(s, k) == (s - 1 + k) % 6 + 1
    decreases k
  {
    if k > 0 {
      SeatAfterClosedForm(s, k - 1);
      var r := (s - 1 + k - 1) % 6;
      assert (s - 1 + k - 1) == 6 * ((s - 1 + k - 1) / 6) + r;
      ModSixShift(r + 1, (s - 1 + k - 1) / 6);
    }
  }

  /** Six steps clockwise return to the same seat. */
  lemma SeatAfterFullCircle(s: Seat, k: nat)
    ensures SeatAfter(s, k + 6) == SeatAfter(s, k)
  {
    SeatAfterClosedForm(s, k);
    SeatAfterClosedForm(s, k + 6);
    ModSixShift(s - 1 + k, 1);
  }

  /** Only the remainder of the number of steps modulo six matters. */
  lemma SeatAfterPeriodic(s: Seat, k: nat)
    ensures SeatAfter(s, k) == SeatAfter(s, k % 6)
  {
    SeatAfterClosedForm(s, k);
    SeatAfterClosedForm(s, k % 6);
    assert k == 6 * (k / 6) + k % 6;
    ModSixShift(s - 1 + k % 6, k / 6);
  }

  /** Fewer than six steps from one seat never reach the same seat twice. */
  lemma SeatAfterInjective(s: Seat, j: nat, k: nat)
    requires j < 6 && k < 6 && j != k
    ensures SeatAfter(s, j) != SeatAfter(s, k)
  {
    SeatAfterClosedForm(s, j);
    SeatAfterClosedForm(s, k);
    ModSixSmall(s - 1 + j);
    ModSixSmall(s - 1 + k);
  }

  /** Every seat is reached from `s` in some number of steps below six: `(t - s + 6) % 6` of them. */
  lemma SeatAfterSurjective(s: Seat, t: Seat)
    ensures 0 <= (t - s + 6) % 6 < 6 && SeatAfter(s, (t - s + 6) % 6) == t
  {
    var k := (t - s + 6) % 6;
    ModSixSmall(t - s + 6);
    assert k == if t >= s then t - s else t - s + 6;
    SeatAfterClosedForm(s, k);
    ModSixSmall(s - 1 + k);
  }

  /** Teams alternate around the table: no two neighbours are partners. */
  lemma NeighboursAreOpponents(s: Seat)
    ensures TeamOf(NextSeat(s)) == OtherTeam(TeamOf(s))
  {
  }

  /** The number of clockwise steps from seat `from` to seat `to`, in 0..5. */
  function ClockwiseSteps(from: Seat, to: Seat): (k: nat)
    ensures k < 6 && SeatAfter(from, k) == to
  {
    SeatAfterSurjective(from, to);
    (to - from + 6) % 6
  }
}
