/**
 * The in-memory reference data the screens read (movies, studios, showtimes,
 * rate table) and the seat-map generator used whenever a showtime is chosen.
 */
module MockData {
  import opened Text
  import opened Types
  import opened Seqs

  /** The read-only data the booking screen consults. */
  datatype Catalogue = Catalogue(
    movies: seq<Movie>,
    studios: seq<Studio>,
    schedules: seq<Schedule>,
    priceRules: seq<PriceRule>)

  /** The descriptions and poster addresses of the catalogue. */
  const InceptionDescription: string := "A thief who steals corporate secrets through the use of dream-sharing technology is given the inverse task of planting an idea into the mind of a C.E.O."
  const InceptionPoster: string := "https://images.pexels.com/photos/9764505/pexels-photo-9764505.jpeg?auto=compress&cs=tinysrgb&w=600"
  const DarkKnightDescription: string := "When the menace known as the Joker wreaks havoc and chaos on the people of Gotham, Batman must accept one of the greatest psychological and physical tests of his ability to fight injustice."
  const DarkKnightPoster: string := "https://images.pexels.com/photos/7991579/pexels-photo-7991579.jpeg?auto=compress&cs=tinysrgb&w=600"
  const InterstellarDescription: string := "A team of explorers travel through a wormhole in space in an attempt to ensure humanity's survival."
  const InterstellarPoster: string := "https://images.pexels.com/photos/5797899/pexels-photo-5797899.jpeg?auto=compress&cs=tinysrgb&w=600"
  const ParasiteDescription: string := "Greed and class discrimination threaten the newly formed symbiotic relationship between the wealthy Park family and the destitute Kim clan."
  const ParasitePoster: string := "https://images.pexels.com/photos/8107206/pexels-photo-8107206.jpeg?auto=compress&cs=tinysrgb&w=600"

  const Movies: seq<Movie> := [
    Movie("1", "Inception", "Sci-Fi", Int(2010), Int(148), InceptionDescription, InceptionPoster),
    Movie("2", "The Dark Knight", "Action", Int(2008), Int(152), DarkKnightDescription, DarkKnightPoster),
    Movie("3", "Interstellar", "Sci-Fi", Int(2014), Int(169), InterstellarDescription, InterstellarPoster),
    Movie("4", "Parasite", "Drama", Int(2019), Int(132), ParasiteDescription, ParasitePoster)
  ]

  const Studios: seq<Studio> := [
    Studio("1", "Studio A", Regular, 120),
    Studio("2", "Studio B", Regular, 100),
    Studio("3", "Studio C", Premiere, 80)
  ]

  const Schedules: seq<Schedule> := [
    Schedule("1", "1", "1", "2023-09-20", "10:00", "12:30"),
    Schedule("2", "2", "2", "2023-09-20", "13:00", "15:30"),
    Schedule("3", "3", "3", "2023-09-20", "16:00", "19:00"),
    Schedule("4", "4", "1", "2023-09-21", "18:30", "21:00")
  ]

  const PriceRules: seq<PriceRule> := [
    PriceRule(Regular, Weekday, 10),
    PriceRule(Regular, Weekend, 12),
    PriceRule(Premiere, Weekday, 15),
    PriceRule(Premiere, Weekend, 18)
  ]

  const Shipped: Catalogue := Catalogue(Movies, Studios, Schedules, PriceRules)

  /** The rate table lists every (studio type, day type) pair exactly once. */
  lemma OneRulePerPair(t: StudioType, d: DayType)
    ensures |Filter(PriceRules, (p: PriceRule) => p.studioType == t && p.dayType == d)| == 1
  {
  }

  /** Every showtime names a listed movie and a listed studio, and no two share an id. */
  lemma SchedulesResolve()
    ensures forall s :: s in Schedules ==> exists m :: m in Movies && m.id == s.movieId
    ensures forall s :: s in Schedules ==> exists st :: st in Studios && st.id == s.studioId
    ensures forall i, j :: 0 <= i < j < |Schedules| ==> Schedules[i].id != Schedules[j].id
  {
    ScheduleMovies();
    ScheduleStudios();
    ScheduleIdsDistinct();
  }

  /** Showtimes 1 and 4 are in studio "1", 2 in studio "2" and 3 in studio "3". */
  lemma ScheduleStudios()
    ensures forall s :: s in Schedules ==> exists st :: st in Studios && st.id == s.studioId
  {
    forall s | s in Schedules ensures exists st :: st in Studios && st.id == s.studioId {
      var i :| 0 <= i < |Schedules| && Schedules[i] == s;
      var k := if i == 1 then 1 else if i == 2 then 2 else 0;
      assert Studios[k].id == s.studioId;
    }
  }

  /** The showtime ids "1" to "4" are pairwise different. */
  lemma ScheduleIdsDistinct()
    ensures forall i, j :: 0 <= i < j < |Schedules| ==> Schedules[i].id != Schedules[j].id
  {
    var ids := ["1", "2", "3", "4"];
    assert forall i :: 0 <= i < |Schedules| ==> Schedules[i].id == ids[i];
  }

  /** Showtime i is of movie i of the catalogue. */
  lemma ScheduleMovies()
    ensures forall s :: s in Schedules ==> exists m :: m in Movies && m.id == s.movieId
  {
    assert |Movies| == |Schedules|;
    forall s | s in Schedules ensures exists m :: m in Movies && m.id == s.movieId {
      var i :| 0 <= i < |Schedules| && Schedules[i] == s;
      assert Movies[i].id == s.movieId;
    }
  }

  /** The seat rows of every studio, front to back. */
  const RowNames: seq<string> := ["A", "B", "C", "D", "E", "F", "G", "H"]

  /** The row names are one letter each and pairwise different. */
  lemma RowNamesDistinct()
    ensures forall a | 0 <= a < |RowNames| :: |RowNames[a]| == 1
    ensures forall a, b | 0 <= a < b < |RowNames| :: RowNames[a] != RowNames[b]
  {
  }

  /** The rows already filled are one letter each and differ from the next one. */
  lemma FilledRowsExclude(ri: nat)
    requires ri < |RowNames|
    ensures forall x | x in RowNames[..ri] :: |x| == 1 && x != RowNames[ri]
  {
    RowNamesDistinct();
  }

  /** Seats per row: the studio with id '3' (the Premiere one) has ten, all others twelve. */
  function SeatsPerRow(studioId: string): nat {
    if studioId == "3" then 10 else 12
  }

  /** The status a fresh seat gets: booked when the occupancy source says so. */
  function InitialStatus(id: string, booked: string -> bool): SeatStatus {
    if booked(id) then Booked else Available
  }

  /** The seat the generator creates at `row` and `number`. */
  function NewSeat(row: string, number: nat, booked: string -> bool): Seat {
    Seat(SeatId(row, number), row, number, InitialStatus(SeatId(row, number), booked))
  }

  /** `seats` holds the generated seat at `row` and `number` under its id. */
  ghost predicate HasNewSeat(seats: map<string, Seat>, row: string, number: nat, booked: string -> bool) {
    SeatId(row, number) in seats && seats[SeatId(row, number)] == NewSeat(row, number, booked)
  }

  /** Every entry of `seats` sits in one of `rows`, has a number in 1..n and is keyed by its id. */
  ghost predicate Keyed(seats: map<string, Seat>, rows: seq<string>, n: nat) {
    forall k | k in seats ::
      seats[k].row in rows && 1 <= seats[k].number <= n &&
      k == SeatId(seats[k].row, seats[k].number)
  }

  /**
   * `seats` is the map the generator produces for `studioId`: one entry per
   * row letter and number 1..SeatsPerRow, keyed by its id, and nothing else.
   */
  ghost predicate IsGeneratedSeatMap(seats: map<string, Seat>, studioId: string, booked: string -> bool) {
    var n := SeatsPerRow(studioId);
    && (forall r, i | r in RowNames && 1 <= i <= n :: HasNewSeat(seats, r, i, booked))
    && Keyed(seats, RowNames, n)
    && |seats| == |RowNames| * n
  }

  /** Like Keyed, but `row` itself is filled only below number `next`. */
  ghost predicate KeyedUpTo(seats: map<string, Seat>, rows: seq<string>, row: string, next: nat, n: nat) {
    forall k | k in seats ::
      (seats[k].row in rows || (seats[k].row == row && seats[k].number < next)) &&
      1 <= seats[k].number <= n && k == SeatId(seats[k].row, seats[k].number)
  }

  /** `seats` keeps every entry of `seats0` unchanged. */
  ghost predicate Extends(seats: map<string, Seat>, seats0: map<string, Seat>) {
    forall k | k in seats0 :: k in seats && seats[k] == seats0[k]
  }

  lemma ExtendsByNewKey(seats: map<string, Seat>, seats0: map<string, Seat>, id: string, s: Seat)
    requires Extends(seats, seats0) && id !in seats
    ensures Extends(seats[id := s], seats0)
  {
  }

  /** The next seat of a row being filled is not in the map yet. */
  lemma NextSeatIsNew(seats: map<string, Seat>, rows: seq<string>, row: string, next: nat, n: nat)
    requires |row| == 1 && row !in rows && forall r | r in rows :: |r| == 1
    requires KeyedUpTo(seats, rows, row, next, n)
    ensures SeatId(row, next) !in seats
  {
    var id := SeatId(row, next);
    if id in seats {
      SeatIdInjective(seats[id].row, seats[id].number, row, next);
      assert false;
    }
  }

  /** The inner `for` loop of the generator: adds the seats 1..n of one row. */
  method FillRow(seats0: map<string, Seat>, row: string, n: nat, booked: string -> bool, ghost rows: seq<string>)
    returns (seats: map<string, Seat>)
    requires |row| == 1 && row !in rows && forall r | r in rows :: |r| == 1
    requires Keyed(seats0, rows, n)
    ensures Extends(seats, seats0)
    ensures forall j | 1 <= j <= n :: HasNewSeat(seats, row, j, booked)
    ensures Keyed(seats, rows + [row], n)
    ensures |seats| == |seats0| + n
  {
    seats := seats0;
    for i := 1 to n + 1
      invariant Extends(seats, seats0)
      invariant forall j | 1 <= j < i :: HasNewSeat(seats, row, j, booked)
      invariant KeyedUpTo(seats, rows, row, i, n)
      invariant |seats| == |seats0| + (i - 1)
    {
      var id := SeatId(row, i);
      NextSeatIsNew(seats, rows, row, i, n);
      ghost var before := seats;
      ExtendsByNewKey(seats, seats0, id, NewSeat(row, i, booked));
      seats := seats[id := NewSeat(row, i, booked)];
      forall j | 1 <= j <= i ensures HasNewSeat(seats, row, j, booked) {
        if j < i {
          assert HasNewSeat(before, row, j, booked);
        }
      }
    }
  }

  /**
   * generateSeatsForStudio: fills a fresh map row by row and number by number.
   * Each seat's booked-or-available status comes from `booked`, which stands for
   * the source's random draw.
   */
  method GenerateSeatsForStudio(studioId: string, booked: string -> bool) returns (seats: map<string, Seat>)
    ensures IsGeneratedSeatMap(seats, studioId, booked)
  {
    seats := map[];
    var n := SeatsPerRow(studioId);
    for ri := 0 to |RowNames|
      invariant |seats| == ri * n
      invariant forall a, i | 0 <= a < ri && 1 <= i <= n :: HasNewSeat(seats, RowNames[a], i, booked)
      invariant Keyed(seats, RowNames[..ri], n)
    {
      ghost var done := RowNames[..ri];
      FilledRowsExclude(ri);
      ghost var before := seats;
      seats := FillRow(seats, RowNames[ri], n, booked, done);
      RowFilled(before, seats, ri, n, booked);
      PrefixStep(RowNames, ri);
    }
    FilledAllRows(seats, studioId, booked);
  }

  /** Filling row `ri` keeps the seats of the rows before it. */
  lemma RowFilled(before: map<string, Seat>, seats: map<string, Seat>, ri: nat, n: nat, booked: string -> bool)
    requires ri < |RowNames| && |before| == ri * n && |seats| == |before| + n
    requires forall a, i | 0 <= a < ri && 1 <= i <= n :: HasNewSeat(before, RowNames[a], i, booked)
    requires Extends(seats, before)
    requires forall j | 1 <= j <= n :: HasNewSeat(seats, RowNames[ri], j, booked)
    ensures |seats| == (ri + 1) * n
    ensures forall a, i | 0 <= a < ri + 1 && 1 <= i <= n :: HasNewSeat(seats, RowNames[a], i, booked)
  {
    forall a, i | 0 <= a <= ri && 1 <= i <= n ensures HasNewSeat(seats, RowNames[a], i, booked) {
      if a < ri {
        assert HasNewSeat(before, RowNames[a], i, booked);
        assert SeatId(RowNames[a], i) in before;
      }
    }
  }

  /** Once all rows are filled, the map is a generated seat map. */
  lemma FilledAllRows(seats: map<string, Seat>, studioId: string, booked: string -> bool)
    requires |seats| == |RowNames| * SeatsPerRow(studioId)
    requires forall a, i | 0 <= a < |RowNames| && 1 <= i <= SeatsPerRow(studioId) :: HasNewSeat(seats, RowNames[a], i, booked)
    requires Keyed(seats, RowNames[..|RowNames|], SeatsPerRow(studioId))
    ensures IsGeneratedSeatMap(seats, studioId, booked)
  {
    assert RowNames[..|RowNames|] == RowNames;
    forall r, i | r in RowNames && 1 <= i <= SeatsPerRow(studioId) ensures HasNewSeat(seats, r, i, booked) {
      var a :| 0 <= a < |RowNames| && RowNames[a] == r;
    }
  }

  /** Studio '3' gets 80 seats and every other studio 96, whatever its type or capacity. */
  lemma GeneratedSeatCount(seats: map<string, Seat>, studioId: string, booked: string -> bool)
    requires IsGeneratedSeatMap(seats, studioId, booked)
    ensures |seats| == if studioId == "3" then 80 else 96
  {
  }

  /** A generated seat is never already selected. */
  lemma GeneratedNeverSelected(seats: map<string, Seat>, studioId: string, booked: string -> bool)
    requires IsGeneratedSeatMap(seats, studioId, booked)
    ensures forall k | k in seats :: seats[k].id == k && seats[k].status != Selected
  {
    forall k | k in seats ensures seats[k].id == k && seats[k].status != Selected {
      var r, i := seats[k].row, seats[k].number;
      assert HasNewSeat(seats, r, i, booked);
    }
  }

  /** Given the same occupancy, the generator's output is fully determined. */
  lemma GeneratedSeatMapUnique(s1: map<string, Seat>, s2: map<string, Seat>, studioId: string, booked: string -> bool)
    requires IsGeneratedSeatMap(s1, studioId, booked) && IsGeneratedSeatMap(s2, studioId, booked)
    ensures s1 == s2
  {
    forall k | k in s1 ensures k in s2 && s2[k] == s1[k] {
      var r, i := s1[k].row, s1[k].number;
      assert HasNewSeat(s1, r, i, booked) && HasNewSeat(s2, r, i, booked);
    }
    forall k | k in s2 ensures k in s1 {
      var r, i := s2[k].row, s2[k].number;
      assert HasNewSeat(s1, r, i, booked);
    }
  }
}
