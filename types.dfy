/** The data model shared by every screen (users, movies, studios, schedules, seats, prices). */
module Types {
  import opened Text

  datatype UserRole = Admin | Operator | Customer

  /** The role as the front end spells it in routes and in the stored session. */
  function RoleName(r: UserRole): string {
    match r
    case Admin => "admin"
    case Operator => "operator"
    case Customer => "customer"
  }

  /**
   * A catalogue entry. `releaseYear` and `duration` are JavaScript numbers:
   * the admin form stores parseInt of what was typed, which may be NaN.
   */
  datatype Movie = Movie(
    id: string,
    title: string,
    genre: string,
    releaseYear: IntOrNaN,
    duration: IntOrNaN,
    description: string,
    posterUrl: string)

  datatype StudioType = Regular | Premiere

  datatype Studio = Studio(id: string, name: string, studioType: StudioType, capacity: int)

  /** A showtime; `date` is written YYYY-MM-DD and the times HH:MM. */
  datatype Schedule = Schedule(
    id: string,
    movieId: string,
    studioId: string,
    date: string,
    startTime: string,
    endTime: string)

  datatype SeatStatus = Available | Selected | Booked

  /** A seat of a studio; its id is its row followed by its number ("A1"). */
  datatype Seat = Seat(id: string, row: string, number: int, status: SeatStatus)

  datatype PaymentMethod = Cash | NonCash

  datatype DayType = Weekday | Weekend

  /** One entry of the rate table: the unit price for a studio type on a kind of day. */
  datatype PriceRule = PriceRule(studioType: StudioType, dayType: DayType, price: int)

  /** The key a seat is stored under and looked up by: `${row}${number}`. */
  function SeatId(row: string, number: nat): string {
    row + Decimal(number)
  }

  /** Seat ids with one-letter rows name exactly one (row, number) pair. */
  lemma SeatIdInjective(r1: string, n1: nat, r2: string, n2: nat)
    requires |r1| == 1 && |r2| == 1
    requires SeatId(r1, n1) == SeatId(r2, n2)
    ensures r1 == r2 && n1 == n2
  {
    var k := SeatId(r1, n1);
    assert r1 == k[..1] && Decimal(n1) == k[1..];
    assert r2 == k[..1] && Decimal(n2) == k[1..];
    DecimalInjective(n1, n2);
  }
}
