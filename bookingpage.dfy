/**
 * The customer's booking wizard: choose a date and a showtime (step 1), pick
 * seats on the showtime's seat map (step 2), choose how to pay and confirm
 * (step 3). Each handler runs to completion together with the effects its
 * state change sets off, in the order the screen declares them.
 */
module BookingPage {
  import opened Text
  import opened Types
  import opened Seqs
  import opened MockData
  import opened Calendar
  import opened SeatGrid

  /** What the confirmation screen is sent at the end of step 3. */
  datatype BookingSummary = BookingSummary(
    movie: Option<Movie>,
    schedule: Option<Schedule>,
    studio: Option<Studio>,
    seats: seq<Seat>,
    totalPrice: int,
    paymentMethod: PaymentMethod)

  /** The wizard's state, one component per state variable of the screen. */
  datatype Wizard = Wizard(
    movie: Option<Movie>,
    selectedDate: string,
    availableDates: seq<string>,
    selectedScheduleId: string,
    schedules: seq<Schedule>,
    selectedStudio: Option<Studio>,
    seats: map<string, Seat>,
    selectedSeats: seq<Seat>,
    paymentMethod: PaymentMethod,
    ticketPrice: int,
    totalPrice: int,
    step: int)

  /** The state before any effect has run. */
  const Initial: Wizard := Wizard(None, "", [], "", [], None, map[], [], Cash, 0, 0, 1)

  // ---------------------------------------------------------------------------
  // The pure lookups the handlers and effects are built from.

  /** `movieSchedules.map(s => s.date)`. */
  function DatesOf(ss: seq<Schedule>): (r: seq<string>)
    ensures |r| == |ss|
    ensures forall i :: 0 <= i < |ss| ==> r[i] == ss[i].date
  {
    seq(|ss|, i requires 0 <= i < |ss| => ss[i].date)
  }

  /** The showtimes of one movie, in table order. */
  function MovieSchedules(schedules: seq<Schedule>, movieId: string): (r: seq<Schedule>)
    ensures forall s :: s in r <==> s in schedules && s.movieId == movieId
  {
    Filter(schedules, (s: Schedule) => s.movieId == movieId)
  }

  lemma DatesOfMembers(ss: seq<Schedule>)
    ensures forall d :: d in DatesOf(ss) <==> exists s :: s in ss && s.date == d
  {
    forall d ensures d in DatesOf(ss) ==> exists s :: s in ss && s.date == d {
      if d in DatesOf(ss) {
        var i :| 0 <= i < |ss| && DatesOf(ss)[i] == d;
        assert ss[i] in ss;
      }
    }
    forall d ensures (exists s :: s in ss && s.date == d) ==> d in DatesOf(ss) {
      if s :| s in ss && s.date == d {
        var i :| 0 <= i < |ss| && ss[i] == s;
        assert DatesOf(ss)[i] == d;
      }
    }
  }

  /**
   * `availableDates`: the dates on which the movie has a showtime, each once,
   * in the order of their first showtime.
   */
  function MovieDates(schedules: seq<Schedule>, movieId: string): (r: seq<string>)
    ensures NoDuplicates(r)
    ensures forall d :: d in r <==> exists s :: s in schedules && s.movieId == movieId && s.date == d
    ensures forall i, j :: 0 <= i < j < |r| ==>
      var ds := DatesOf(MovieSchedules(schedules, movieId));
      r[i] in ds && r[j] in ds && FirstIndex(ds, r[i]) < FirstIndex(ds, r[j])
  {
    DatesOfMembers(MovieSchedules(schedules, movieId));
    DistinctOrder(DatesOf(MovieSchedules(schedules, movieId)));
    Distinct(DatesOf(MovieSchedules(schedules, movieId)))
  }

  /** The showtimes of a movie on a date, in table order. */
  function ShowtimesFor(schedules: seq<Schedule>, movieId: string, date: string): (r: seq<Schedule>)
    ensures |r| <= |schedules|
    ensures forall s :: s in r <==> s in schedules && s.movieId == movieId && s.date == date
  {
    Filter(schedules, (s: Schedule) => s.movieId == movieId && s.date == date)
  }

  /** The unit price the first rule for a studio type and day type gives, if there is one. */
  function PriceFor(rules: seq<PriceRule>, t: StudioType, d: DayType): (r: Option<int>)
    ensures r.Some? <==> exists i :: 0 <= i < |rules| && rules[i].studioType == t && rules[i].dayType == d
    ensures r.Some? ==> exists i :: 0 <= i < |rules| && rules[i].studioType == t && rules[i].dayType == d &&
                                  rules[i].price == r.value &&
                                  forall j :: 0 <= j < i ==> !(rules[j].studioType == t && rules[j].dayType == d)
  {
    match Find(rules, (p: PriceRule) => p.studioType == t && p.dayType == d)
    case None => None
    case Some(p) => Some(p.price)
  }

  /** The shipped rate table: 10 and 12 in a regular studio, 15 and 18 in a premiere one. */
  lemma ShippedPrices()
    ensures PriceFor(PriceRules, Regular, Weekday) == Some(10)
    ensures PriceFor(PriceRules, Regular, Weekend) == Some(12)
    ensures PriceFor(PriceRules, Premiere, Weekday) == Some(15)
    ensures PriceFor(PriceRules, Premiere, Weekend) == Some(18)
  {
  }

  /**
   * Every shipped showtime resolves to its studio, and since every shipped
   * date is a weekday its unit price is 10 in the regular studios and 15 in
   * the premiere one.
   */
  lemma ShippedShowtimePrices(i: nat)
    requires i < |Schedules|
    ensures var sh := Resolve(Schedules, Studios, Schedules[i].id);
      sh.Some? && sh.value.schedule == Schedules[i] &&
      ShowingPrice(PriceRules, sh.value) == Some(if Schedules[i].studioId == "3" then 15 else 10)
  {
    var st := ShippedShowtimeResolves(i);
    ShippedShowingPrice(Schedules[i].date, st.studioType);
  }

  /** The studio a shipped showtime resolves to. */
  lemma ShippedShowtimeResolves(i: nat) returns (st: Studio)
    requires i < |Schedules|
    ensures Resolve(Schedules, Studios, Schedules[i].id) == Some(Showing(Schedules[i], st))
    ensures st.studioType == if Schedules[i].studioId == "3" then Premiere else Regular
    ensures Schedules[i].date == "2023-09-20" || Schedules[i].date == "2023-09-21"
  {
    var k := if i == 1 then 1 else if i == 2 then 2 else 0;
    st := Studios[k];
    ShippedShowtimeStudio(i);
    ScheduleFound(Schedules, i);
    StudioFound(Studios, k);
    ResolveFound(Schedules, Studios, i, k);
  }

  /** The shipped showtimes' ids are unique, and each names the studio listed at its position. */
  lemma ShippedShowtimeStudio(i: nat)
    requires i < |Schedules|
    ensures forall j :: 0 <= j < i ==> Schedules[j].id != Schedules[i].id
    ensures var k := if i == 1 then 1 else if i == 2 then 2 else 0;
      Schedules[i].studioId == Studios[k].id && (Studios[k].studioType == Premiere <==> Studios[k].id == "3") &&
      (forall j :: 0 <= j < k ==> Studios[j].id != Studios[k].id) &&
      (Schedules[i].date == "2023-09-20" || Schedules[i].date == "2023-09-21")
  {
  }

  /** A weekday showing in the shipped data costs 10 in a regular studio and 15 in the premiere one. */
  lemma ShippedShowingPrice(date: string, t: StudioType)
    requires date == "2023-09-20" || date == "2023-09-21"
    ensures PriceFor(PriceRules, t, DayTypeOf(date)) == Some(if t == Premiere then 15 else 10)
  {
    ShowtimeDatesAreWeekdays(date);
    ShippedPrices();
  }

  /** `schedules.find(s => s.id === id)`. */
  function ScheduleById(schedules: seq<Schedule>, id: string): (r: Option<Schedule>)
    ensures r.Some? <==> exists i :: 0 <= i < |schedules| && schedules[i].id == id
    ensures r.Some? ==> exists i :: 0 <= i < |schedules| && schedules[i] == r.value && r.value.id == id &&
                          forall j :: 0 <= j < i ==> schedules[j].id != id
  {
    Find(schedules, (s: Schedule) => s.id == id)
  }

  /** `mockStudios.find(s => s.id === studioId)`. */
  function StudioById(studios: seq<Studio>, id: string): (r: Option<Studio>)
    ensures r.Some? <==> exists i :: 0 <= i < |studios| && studios[i].id == id
    ensures r.Some? ==> exists i :: 0 <= i < |studios| && studios[i] == r.value && r.value.id == id &&
                          forall j :: 0 <= j < i ==> studios[j].id != id
  {
    Find(studios, (s: Studio) => s.id == id)
  }

  /** A showtime together with its studio. */
  datatype Showing = Showing(schedule: Schedule, studio: Studio)

  /** The listed showtime with id `id` and its studio, when both are found. */
  function Resolve(schedules: seq<Schedule>, studios: seq<Studio>, id: string): (r: Option<Showing>)
    ensures r.Some? ==> r.value.schedule in schedules && r.value.schedule.id == id
    ensures r.Some? ==> r.value.studio in studios && r.value.studio.id == r.value.schedule.studioId
    ensures r.None? ==> (ScheduleById(schedules, id).None? ||
                         forall st :: st in studios ==> st.id != ScheduleById(schedules, id).value.studioId)
  {
    match ScheduleById(schedules, id)
    case None => None
    case Some(sch) =>
      match StudioById(studios, sch.studioId)
      case None => None
      case Some(st) => Some(Showing(sch, st))
  }

  /** In a table whose ids are unique, looking up a showtime's id finds that showtime. */
  lemma ScheduleFound(schedules: seq<Schedule>, i: nat)
    requires i < |schedules| && forall j :: 0 <= j < i ==> schedules[j].id != schedules[i].id
    ensures ScheduleById(schedules, schedules[i].id) == Some(schedules[i])
  {
    FindAt(schedules, (s: Schedule) => s.id == schedules[i].id, i);
  }

  /** In a table whose ids are unique, looking up a studio's id finds that studio. */
  lemma StudioFound(studios: seq<Studio>, i: nat)
    requires i < |studios| && forall j :: 0 <= j < i ==> studios[j].id != studios[i].id
    ensures StudioById(studios, studios[i].id) == Some(studios[i])
  {
    FindAt(studios, (s: Studio) => s.id == studios[i].id, i);
  }

  /** A showtime that is found, whose studio is found, resolves to the two. */
  lemma ResolveFound(schedules: seq<Schedule>, studios: seq<Studio>, i: nat, k: nat)
    requires i < |schedules| && k < |studios|
    requires ScheduleById(schedules, schedules[i].id) == Some(schedules[i])
    requires StudioById(studios, schedules[i].studioId) == Some(studios[k])
    ensures Resolve(schedules, studios, schedules[i].id) == Some(Showing(schedules[i], studios[k]))
  {
  }

  /** The unit price of a showing: the rule for its studio's type and its date's day type. */
  function ShowingPrice(rules: seq<PriceRule>, sh: Showing): (r: Option<int>)
    ensures var d := DayTypeOf(sh.schedule.date);
      r.Some? <==> exists i :: 0 <= i < |rules| && rules[i].studioType == sh.studio.studioType && rules[i].dayType == d
    ensures var d := DayTypeOf(sh.schedule.date);
      r.Some? ==> exists i :: 0 <= i < |rules| && rules[i].studioType == sh.studio.studioType &&
                             rules[i].dayType == d && rules[i].price == r.value
  {
    PriceFor(rules, sh.studio.studioType, DayTypeOf(sh.schedule.date))
  }

  // ---------------------------------------------------------------------------
  // The seat selection.

  /** Some selected seat has id `id`. */
  predicate HasId(sel: seq<Seat>, id: string) {
    exists i :: 0 <= i < |sel| && sel[i].id == id
  }

  /** `selectedSeats.find(s => s.id === id)` is a seat (objects are truthy). */
  function IsSelected(sel: seq<Seat>, id: string): (b: bool)
    ensures b <==> HasId(sel, id)
  {
    Find(sel, (s: Seat) => s.id == id).Some?
  }

  /** `selectedSeats.filter(s => s.id !== id)`. */
  function WithoutSeat(sel: seq<Seat>, id: string): (r: seq<Seat>)
    ensures forall s :: s in r <==> s in sel && s.id != id
  {
    Filter(sel, (s: Seat) => s.id != id)
  }

  /** No two selected seats share an id. */
  predicate DistinctIds(sel: seq<Seat>) {
    forall i, j :: 0 <= i < j < |sel| ==> sel[i].id != sel[j].id
  }

  /** The selection after `seat` is toggled. */
  function ToggledSelection(sel: seq<Seat>, seat: Seat): seq<Seat> {
    if IsSelected(sel, seat.id) then WithoutSeat(sel, seat.id) else sel + [seat]
  }

  /** The seat map after `seat` is toggled: only the entry under the seat's id changes. */
  function ToggledSeats(seats: map<string, Seat>, sel: seq<Seat>, seat: Seat): map<string, Seat> {
    seats[seat.id := seat.(status := if IsSelected(sel, seat.id) then Available else Selected)]
  }

  /** Removing an id from a concatenation removes it from each part. */
  lemma WithoutSeatConcat(a: seq<Seat>, b: seq<Seat>, id: string)
    ensures WithoutSeat(a + b, id) == WithoutSeat(a, id) + WithoutSeat(b, id)
  {
    FilterConcat(a, b, (s: Seat) => s.id != id);
  }

  /** Removing an id no selected seat has changes nothing. */
  lemma WithoutAbsentSeat(sel: seq<Seat>, id: string)
    requires forall i :: 0 <= i < |sel| ==> sel[i].id != id
    ensures WithoutSeat(sel, id) == sel
  {
    FilterAll(sel, (s: Seat) => s.id != id);
  }

  /** Removing an id held only by the seat between `pre` and `post` takes out that seat alone. */
  lemma WithoutSeatBetween(pre: seq<Seat>, x: Seat, post: seq<Seat>)
    requires forall i :: 0 <= i < |pre| ==> pre[i].id != x.id
    requires forall i :: 0 <= i < |post| ==> post[i].id != x.id
    ensures WithoutSeat(pre + [x] + post, x.id) == pre + post
  {
    assert WithoutSeat(pre + [x], x.id) == pre by {
      WithoutSeatConcat(pre, [x], x.id);
      WithoutOnlySeat(x);
      WithoutAbsentSeat(pre, x.id);
    }
    WithoutSeatConcat(pre + [x], post, x.id);
    WithoutAbsentSeat(post, x.id);
  }

  lemma WithoutOnlySeat(x: Seat)
    ensures WithoutSeat([x], x.id) == []
  {
    assert [x][1..] == [];
  }

  /** Removing the one seat with a given id from a selection without repeated ids takes out that position only. */
  lemma WithoutSeatAt(sel: seq<Seat>, k: nat)
    requires DistinctIds(sel) && k < |sel|
    ensures WithoutSeat(sel, sel[k].id) == sel[..k] + sel[k + 1..]
  {
    var pre, post := sel[..k], sel[k + 1..];
    assert sel == pre + [sel[k]] + post;
    forall i | 0 <= i < |pre| ensures pre[i].id != sel[k].id {
      assert pre[i] == sel[i];
    }
    forall i | 0 <= i < |post| ensures post[i].id != sel[k].id {
      assert post[i] == sel[k + 1 + i];
    }
    WithoutSeatBetween(pre, sel[k], post);
  }

  /** Taking one position out of a selection without repeated ids leaves none. */
  lemma RemovalKeepsDistinct(sel: seq<Seat>, k: nat)
    requires DistinctIds(sel) && k < |sel|
    ensures DistinctIds(sel[..k] + sel[k + 1..])
  {
    var r := sel[..k] + sel[k + 1..];
    forall i, j | 0 <= i < j < |r| ensures r[i].id != r[j].id {
      var i', j' := if i < k then i else i + 1, if j < k then j else j + 1;
      assert r[i] == sel[i'] && r[j] == sel[j'];
    }
  }

  /** handleSeatSelect on a selected id: the seat with that id is taken out of its place, and no other. */
  lemma ToggleRemoves(sel: seq<Seat>, seat: Seat, k: nat)
    requires DistinctIds(sel) && k < |sel| && sel[k].id == seat.id
    ensures ToggledSelection(sel, seat) == sel[..k] + sel[k + 1..]
    ensures DistinctIds(ToggledSelection(sel, seat))
    ensures !HasId(ToggledSelection(sel, seat), seat.id)
  {
    assert HasId(sel, seat.id);
    var without := WithoutSeat(sel, seat.id);
    assert ToggledSelection(sel, seat) == without;
    WithoutSeatAt(sel, k);
    RemovalKeepsDistinct(sel, k);
    forall j | 0 <= j < |without| ensures without[j].id != seat.id {
      assert without[j] in without;
    }
  }

  /** handleSeatSelect on an id that is not selected: the seat is appended. */
  lemma ToggleAppends(sel: seq<Seat>, seat: Seat)
    requires DistinctIds(sel) && !HasId(sel, seat.id)
    ensures ToggledSelection(sel, seat) == sel + [seat]
    ensures DistinctIds(ToggledSelection(sel, seat))
    ensures HasId(ToggledSelection(sel, seat), seat.id)
  {
    var r := sel + [seat];
    assert forall i :: 0 <= i < |sel| ==> r[i] == sel[i];
    assert r[|sel|] == seat;
  }

  /**
   * handleSeatSelect on the selection: a seat whose id is selected is taken
   * out of its place, any other seat is appended; the other seats keep their
   * order and no id is ever selected twice.
   */
  lemma ToggleSelection(sel: seq<Seat>, seat: Seat)
    requires DistinctIds(sel)
    ensures !HasId(sel, seat.id) ==> ToggledSelection(sel, seat) == sel + [seat]
    ensures forall k :: 0 <= k < |sel| && sel[k].id == seat.id ==>
      ToggledSelection(sel, seat) == sel[..k] + sel[k + 1..]
    ensures DistinctIds(ToggledSelection(sel, seat))
    ensures HasId(ToggledSelection(sel, seat), seat.id) <==> !HasId(sel, seat.id)
  {
    if HasId(sel, seat.id) {
      var k :| 0 <= k < |sel| && sel[k].id == seat.id;
      forall k' | 0 <= k' < |sel| && sel[k'].id == seat.id
        ensures ToggledSelection(sel, seat) == sel[..k'] + sel[k' + 1..]
      {
        ToggleRemoves(sel, seat, k');
      }
      ToggleRemoves(sel, seat, k);
    } else {
      ToggleAppends(sel, seat);
    }
  }

  /** Toggling a seat that is not selected twice gives back the selection it started from. */
  lemma ToggleTwice(sel: seq<Seat>, seat: Seat)
    requires !HasId(sel, seat.id)
    ensures ToggledSelection(ToggledSelection(sel, seat), seat) == sel
  {
    var once := sel + [seat];
    assert HasId(once, seat.id) by {
      assert once[|sel|].id == seat.id;
    }
    var p := (s: Seat) => s.id != seat.id;
    FilterSnoc(sel, seat, p);
    forall s | s in sel ensures p(s) {
      var i :| 0 <= i < |sel| && sel[i] == s;
    }
    FilterAll(sel, p);
  }

  /**
   * Clicking an available seat of the grid and then clicking its cell again
   * (which now shows it selected) gives back the seat map, the selection and
   * the total the screen had before.
   */
  lemma ToggleTwiceRestores(w: Wizard, seat: Seat)
    requires seat.id in w.seats && w.seats[seat.id] == seat && seat.status == Available
    requires !HasId(w.selectedSeats, seat.id)
    ensures var w1 := SeatToggled(w, seat);
      && seat.id in w1.seats && w1.seats[seat.id] == seat.(status := Selected)
      && var w2 := SeatToggled(w1, w1.seats[seat.id]);
         && w2.seats == w.seats
         && w2.selectedSeats == w.selectedSeats
         && w2.totalPrice == |w.selectedSeats| * w.ticketPrice
  {
    var once := w.selectedSeats + [seat];
    var shown := seat.(status := Selected);
    assert once[|w.selectedSeats|].id == seat.id;
    assert ToggledSelection(once, shown) == ToggledSelection(once, seat);
    ToggleTwice(w.selectedSeats, seat);
    assert shown.(status := Available) == seat;
    assert w.seats[seat.id := seat] == w.seats;
  }

  /**
   * The seat map agrees with the selection: a seat of the map is marked
   * selected exactly when its id is selected, and every selected id is a
   * seat of the map.
   */
  ghost predicate Consistent(seats: map<string, Seat>, sel: seq<Seat>) {
    && (forall k :: k in seats ==> (seats[k].status == Selected <==> HasId(sel, k)))
    && (forall i :: 0 <= i < |sel| ==> sel[i].id in seats)
  }

  /** Toggling a seat of the map keeps the map and the selection in agreement. */
  lemma ToggleKeepsConsistent(seats: map<string, Seat>, sel: seq<Seat>, seat: Seat)
    requires Consistent(seats, sel) && seat.id in seats
    ensures Consistent(ToggledSeats(seats, sel, seat), ToggledSelection(sel, seat))
  {
    if IsSelected(sel, seat.id) {
      DeselectKeepsConsistent(seats, sel, seat);
    } else {
      SelectKeepsConsistent(seats, sel, seat);
    }
  }

  /** Deselecting: the seat's entry becomes available and its id leaves the selection. */
  lemma DeselectKeepsConsistent(seats: map<string, Seat>, sel: seq<Seat>, seat: Seat)
    requires Consistent(seats, sel) && seat.id in seats && IsSelected(sel, seat.id)
    ensures Consistent(ToggledSeats(seats, sel, seat), ToggledSelection(sel, seat))
  {
    var seats', sel' := ToggledSeats(seats, sel, seat), ToggledSelection(sel, seat);
    assert seats' == seats[seat.id := seat.(status := Available)];
    assert sel' == WithoutSeat(sel, seat.id);
    forall k | k in seats' && k != seat.id ensures HasId(sel', k) <==> HasId(sel, k) {
      WithoutOtherId(sel, seat.id, k);
    }
    WithoutSeatMembers(sel, seat.id);
    assert !HasId(sel', seat.id);
  }

  /** Removing one id does not change whether another id is selected. */
  lemma WithoutOtherId(sel: seq<Seat>, id: string, k: string)
    requires k != id
    ensures HasId(WithoutSeat(sel, id), k) <==> HasId(sel, k)
  {
    var r := WithoutSeat(sel, id);
    if HasId(sel, k) {
      var i :| 0 <= i < |sel| && sel[i].id == k;
      assert sel[i] in r;
      var j :| 0 <= j < |r| && r[j] == sel[i];
    }
    if HasId(r, k) {
      var j :| 0 <= j < |r| && r[j].id == k;
      assert r[j] in sel;
      var i :| 0 <= i < |sel| && sel[i] == r[j];
    }
  }

  /** What remains after removing an id: seats of the selection, none with that id. */
  lemma WithoutSeatMembers(sel: seq<Seat>, id: string)
    ensures forall j :: 0 <= j < |WithoutSeat(sel, id)| ==>
      WithoutSeat(sel, id)[j].id != id && WithoutSeat(sel, id)[j] in sel
    ensures !HasId(WithoutSeat(sel, id), id)
  {
    var r := WithoutSeat(sel, id);
    forall j | 0 <= j < |r| ensures r[j].id != id && r[j] in sel {
      assert r[j] in r;
    }
  }

  /** Selecting: the seat's entry becomes selected and the seat is appended. */
  lemma SelectKeepsConsistent(seats: map<string, Seat>, sel: seq<Seat>, seat: Seat)
    requires Consistent(seats, sel) && seat.id in seats && !IsSelected(sel, seat.id)
    ensures Consistent(ToggledSeats(seats, sel, seat), ToggledSelection(sel, seat))
  {
    var seats', sel' := ToggledSeats(seats, sel, seat), ToggledSelection(sel, seat);
    assert seats' == seats[seat.id := seat.(status := Selected)];
    assert sel' == sel + [seat];
    assert sel'[|sel|] == seat;
    forall k | k in seats' && k != seat.id ensures HasId(sel', k) <==> HasId(sel, k) {
      if HasId(sel', k) {
        var j :| 0 <= j < |sel'| && sel'[j].id == k;
        assert j < |sel| && sel'[j] == sel[j];
      }
      if HasId(sel, k) {
        var i :| 0 <= i < |sel| && sel[i].id == k;
        assert sel'[i] == sel[i];
      }
    }
  }

  /**
   * A freshly generated seat map agrees with the selection only when nothing
   * is selected: picking a new showtime regenerates the map but keeps the
   * selection, so agreement is lost as soon as a seat was selected before.
   */
  lemma RegeneratedMapAgreesOnlyWithEmptySelection(generated: map<string, Seat>, studioId: string,
                                                   booked: string -> bool, sel: seq<Seat>)
    requires IsGeneratedSeatMap(generated, studioId, booked)
    ensures Consistent(generated, sel) <==> sel == []
  {
    GeneratedNeverSelected(generated, studioId, booked);
    if sel != [] {
      assert HasId(sel, sel[0].id);
    }
  }

  // ---------------------------------------------------------------------------
  // The steps of the wizard.

  /** handleContinue's step: 1 to 2 once a showtime is chosen, 2 to 3 once a seat is selected. */
  function ContinueStep(step: int, scheduleId: string, seatCount: nat): (r: int)
    ensures r == step || r == step + 1
    ensures r == step + 1 <==> (step == 1 && scheduleId != "") || (step == 2 && seatCount > 0)
  {
    if step == 1 && scheduleId != "" then 2
    else if step == 2 && seatCount > 0 then 3
    else step
  }

  /** handleBack's step: one back, never below 1. */
  function BackStep(step: int): (r: int)
    ensures step > 1 ==> r == step - 1
    ensures step <= 1 ==> r == step
  {
    if step > 1 then step - 1 else step
  }

  /** The steps stay in 1..3, and Back undoes a Continue that moved. */
  lemma StepsStayInRange(step: int, scheduleId: string, seatCount: nat)
    requires 1 <= step <= 3
    ensures 1 <= ContinueStep(step, scheduleId, seatCount) <= 3
    ensures 1 <= BackStep(step) <= 3
    ensures ContinueStep(step, scheduleId, seatCount) != step ==>
      BackStep(ContinueStep(step, scheduleId, seatCount)) == step
  {
  }

  // ---------------------------------------------------------------------------
  // The transitions, on wizard states.

  /** The total-price effect: the number of selected seats times the unit price. */
  function Settled(w: Wizard): Wizard {
    w.(totalPrice := |w.selectedSeats| * w.ticketPrice)
  }

  /** The effect on the date and the movie: the day's showtimes of the movie, and no showtime chosen. */
  function DateEffect(w: Wizard, cat: Catalogue): Wizard {
    if w.selectedDate != "" && w.movie.Some? then
      w.(schedules := ShowtimesFor(cat.schedules, w.movie.value.id, w.selectedDate), selectedScheduleId := "")
    else w
  }

  /**
   * The effect on the chosen showtime: its studio, a seat map generated for
   * that studio (`generated`), and the unit price of its rule, or the old price
   * when no rule applies. The selection is left as it is.
   */
  function ScheduleEffect(w: Wizard, cat: Catalogue, generated: map<string, Seat>): Wizard {
    if w.selectedScheduleId == "" then w
    else
      match Resolve(w.schedules, cat.studios, w.selectedScheduleId)
      case None => w
      case Some(sh) =>
        var price := ShowingPrice(cat.priceRules, sh);
        w.(selectedStudio := Some(sh.studio), seats := generated,
           ticketPrice := if price.Some? then price.value else w.ticketPrice)
  }

  /** A showtime that resolves to `sh` brings its studio, the generated seat map and its price. */
  lemma ScheduleEffectResolved(w: Wizard, cat: Catalogue, generated: map<string, Seat>, sh: Showing)
    requires w.selectedScheduleId != ""
    requires ScheduleById(w.schedules, w.selectedScheduleId) == Some(sh.schedule)
    requires StudioById(cat.studios, sh.schedule.studioId) == Some(sh.studio)
    ensures Resolve(w.schedules, cat.studios, w.selectedScheduleId) == Some(sh)
    ensures var price := ShowingPrice(cat.priceRules, sh);
      ScheduleEffect(w, cat, generated) ==
        w.(selectedStudio := Some(sh.studio), seats := generated,
           ticketPrice := if price.Some? then price.value else w.ticketPrice)
  {
  }

  /** No showtime chosen, or one that does not resolve, leaves the wizard as it is. */
  lemma ScheduleEffectUnresolved(w: Wizard, cat: Catalogue, generated: map<string, Seat>)
    requires w.selectedScheduleId == "" || ScheduleById(w.schedules, w.selectedScheduleId).None? ||
      StudioById(cat.studios, ScheduleById(w.schedules, w.selectedScheduleId).value.studioId).None?
    ensures Resolve(w.schedules, cat.studios, w.selectedScheduleId).None? || w.selectedScheduleId == ""
    ensures ScheduleEffect(w, cat, generated) == w
  {
  }

  /**
   * The route parameter `movieId` arrives: for a listed movie, the movie, its
   * dates and its first date, then the date effect when the movie or the date
   * changed. An empty id or an unknown movie changes nothing.
   */
  function MovieLoaded(w: Wizard, cat: Catalogue, movieId: string): Wizard {
    if movieId == "" then w
    else
      match Find(cat.movies, (m: Movie) => m.id == movieId)
      case None => w
      case Some(m) =>
        var dates := MovieDates(cat.schedules, movieId);
        var w1 := w.(movie := Some(m), availableDates := dates,
                     selectedDate := if |dates| > 0 then dates[0] else w.selectedDate);
        if w1.movie != w.movie || w1.selectedDate != w.selectedDate then DateEffect(w1, cat) else w1
  }

  /** A date button: a new date sets off the date effect; the current date changes nothing. */
  function DateSelected(w: Wizard, cat: Catalogue, date: string): Wizard {
    if date == w.selectedDate then w else DateEffect(w.(selectedDate := date), cat)
  }

  /** A showtime button: a new id sets off the showtime effect and the total; the current id changes nothing. */
  function ScheduleSelected(w: Wizard, cat: Catalogue, id: string, generated: map<string, Seat>): Wizard {
    if id == w.selectedScheduleId then w
    else Settled(ScheduleEffect(w.(selectedScheduleId := id), cat, generated))
  }

  /** handleSeatSelect followed by the total. */
  function SeatToggled(w: Wizard, seat: Seat): Wizard {
    Settled(w.(selectedSeats := ToggledSelection(w.selectedSeats, seat),
               seats := ToggledSeats(w.seats, w.selectedSeats, seat)))
  }

  /** handleContinue's change of step. */
  function Continued(w: Wizard): Wizard {
    w.(step := ContinueStep(w.step, w.selectedScheduleId, |w.selectedSeats|))
  }

  /** handleBack. */
  function Backed(w: Wizard): Wizard {
    w.(step := BackStep(w.step))
  }

  /** What handleContinue sends on from step 3, and only from there. */
  function Summary(w: Wizard): (r: Option<BookingSummary>)
    ensures r.Some? <==> w.step == 3
    ensures r.Some? ==> (r.value.seats == w.selectedSeats && r.value.totalPrice == w.totalPrice &&
      r.value.paymentMethod == w.paymentMethod && r.value.movie == w.movie &&
      r.value.studio == w.selectedStudio && r.value.schedule == ScheduleById(w.schedules, w.selectedScheduleId))
  {
    if w.step == 3 then
      Some(BookingSummary(w.movie, ScheduleById(w.schedules, w.selectedScheduleId), w.selectedStudio,
                          w.selectedSeats, w.totalPrice, w.paymentMethod))
    else None
  }

  // ---------------------------------------------------------------------------
  // The invariant every transition keeps.

  /** When a movie and a date are chosen, the listed showtimes are that movie's on that date. */
  ghost predicate SchedulesCurrent(w: Wizard, cat: Catalogue) {
    w.movie.Some? && w.selectedDate != "" ==>
      w.schedules == ShowtimesFor(cat.schedules, w.movie.value.id, w.selectedDate)
  }

  /** The unit price is still the initial 0 or the price of some rule. */
  ghost predicate PriceListed(w: Wizard, cat: Catalogue) {
    w.ticketPrice == 0 || exists i :: 0 <= i < |cat.priceRules| && cat.priceRules[i].price == w.ticketPrice
  }

  ghost predicate ValidWizard(w: Wizard, cat: Catalogue) {
    && 1 <= w.step <= 3
    && w.totalPrice == |w.selectedSeats| * w.ticketPrice
    && DistinctIds(w.selectedSeats)
    && SchedulesCurrent(w, cat)
    && PriceListed(w, cat)
  }

  lemma InitialValid(cat: Catalogue)
    ensures ValidWizard(Initial, cat)
  {
  }

  /** Loading a movie keeps the invariant. */
  lemma MovieLoadedValid(w: Wizard, cat: Catalogue, movieId: string)
    requires ValidWizard(w, cat)
    ensures ValidWizard(MovieLoaded(w, cat, movieId), cat)
  {
  }

  /** Choosing a date keeps the invariant. */
  lemma DateSelectedValid(w: Wizard, cat: Catalogue, date: string)
    requires ValidWizard(w, cat)
    ensures ValidWizard(DateSelected(w, cat, date), cat)
  {
  }

  /** Choosing a showtime keeps the invariant; the new price comes from the rate table. */
  lemma ScheduleSelectedValid(w: Wizard, cat: Catalogue, id: string, generated: map<string, Seat>)
    requires ValidWizard(w, cat)
    ensures ValidWizard(ScheduleSelected(w, cat, id, generated), cat)
  {
    var w1 := w.(selectedScheduleId := id);
    if id != w.selectedScheduleId && id != "" {
      match Resolve(w1.schedules, cat.studios, id)
      case None =>
      case Some(sh) =>
        var price := ShowingPrice(cat.priceRules, sh);
        if price.Some? {
          var i :| 0 <= i < |cat.priceRules| && cat.priceRules[i].studioType == sh.studio.studioType &&
            cat.priceRules[i].dayType == DayTypeOf(sh.schedule.date) && cat.priceRules[i].price == price.value &&
            (forall j :: 0 <= j < i ==> !(cat.priceRules[j].studioType == sh.studio.studioType &&
                                          cat.priceRules[j].dayType == DayTypeOf(sh.schedule.date)));
        }
    }
  }

  /** Toggling a seat keeps the invariant: the total follows the selection and no id is selected twice. */
  lemma SeatToggledValid(w: Wizard, cat: Catalogue, seat: Seat)
    requires ValidWizard(w, cat)
    ensures ValidWizard(SeatToggled(w, seat), cat)
  {
    ToggleSelection(w.selectedSeats, seat);
  }

  lemma StepChangesValid(w: Wizard, cat: Catalogue)
    requires ValidWizard(w, cat)
    ensures ValidWizard(Continued(w), cat) && ValidWizard(Backed(w), cat)
  {
    StepsStayInRange(w.step, w.selectedScheduleId, |w.selectedSeats|);
  }

  // ---------------------------------------------------------------------------
  // What the transitions promise.

  /**
   * Opening the wizard on a listed movie with showtimes chooses its first
   * date and lists that day's showtimes, none of them chosen yet; on an empty
   * or unknown id nothing changes, and the screen shows "Movie not found".
   */
  lemma LoadChoosesFirstDate(w: Wizard, cat: Catalogue, movieId: string)
    requires SchedulesCurrent(w, cat)
    ensures (movieId == "" || forall m :: m in cat.movies ==> m.id != movieId) ==>
      MovieLoaded(w, cat, movieId) == w
    ensures movieId != "" && (exists m :: m in cat.movies && m.id == movieId) ==>
      KnownMovieLoaded(w, MovieLoaded(w, cat, movieId), cat, movieId)
  {
    if movieId != "" && (exists m :: m in cat.movies && m.id == movieId) {
      LoadKnownMovie(w, cat, movieId);
    } else {
      LoadUnknownMovie(w, cat, movieId);
    }
  }

  /** An empty id or an id no movie has leaves the wizard as it is. */
  lemma LoadUnknownMovie(w: Wizard, cat: Catalogue, movieId: string)
    requires movieId == "" || forall m :: m in cat.movies ==> m.id != movieId
    ensures MovieLoaded(w, cat, movieId) == w
  {
    if movieId != "" {
      assert Find(cat.movies, (m: Movie) => m.id == movieId).None?;
    }
  }

  /** A movie id some listed movie has is found, and `find` hands back a listed movie with that id. */
  lemma MovieFound(movies: seq<Movie>, movieId: string) returns (m: Movie)
    requires exists m :: m in movies && m.id == movieId
    ensures Find(movies, (m: Movie) => m.id == movieId) == Some(m)
    ensures m in movies && m.id == movieId
  {
    var m0 :| m0 in movies && m0.id == movieId;
    var i :| 0 <= i < |movies| && movies[i] == m0;
    assert movies[i].id == movieId;
    m := Find(movies, (m: Movie) => m.id == movieId).value;
  }

  /**
   * `r` is `w` after listed movie `movieId` is loaded: the movie and its dates,
   * its first date (the old date when it has none), that day's showtimes, and
   * no showtime chosen once the movie or the date changed. When neither
   * changed only the date list is refreshed; the selection, the seat map,
   * the step, the studio, the prices and the payment method always stay.
   */
  ghost predicate KnownMovieLoaded(w: Wizard, r: Wizard, cat: Catalogue, movieId: string) {
    var dates := MovieDates(cat.schedules, movieId);
    && r.movie.Some? && r.movie.value.id == movieId && r.movie.value in cat.movies
    && r.availableDates == dates
    && r.selectedDate == (if dates != [] then dates[0] else w.selectedDate)
    && (r.selectedDate != "" ==> r.schedules == ShowtimesFor(cat.schedules, movieId, r.selectedDate))
    && ((r.movie != w.movie || r.selectedDate != w.selectedDate) && r.selectedDate != "" ==> r.selectedScheduleId == "")
    && (r.selectedDate == "" ==> r.schedules == w.schedules && r.selectedScheduleId == w.selectedScheduleId)
    && (r.movie == w.movie && r.selectedDate == w.selectedDate ==> r == w.(availableDates := dates))
    && r.selectedSeats == w.selectedSeats && r.seats == w.seats && r.step == w.step
    && r.selectedStudio == w.selectedStudio && r.ticketPrice == w.ticketPrice
    && r.totalPrice == w.totalPrice && r.paymentMethod == w.paymentMethod
  }

  /** A listed movie is loaded with its dates, and its first date and that day's showtimes are chosen. */
  lemma LoadKnownMovie(w: Wizard, cat: Catalogue, movieId: string)
    requires SchedulesCurrent(w, cat)
    requires movieId != "" && exists m :: m in cat.movies && m.id == movieId
    ensures KnownMovieLoaded(w, MovieLoaded(w, cat, movieId), cat, movieId)
  {
    var m := MovieFound(cat.movies, movieId);
    var dates := MovieDates(cat.schedules, movieId);
    var w1 := w.(movie := Some(m), availableDates := dates,
                 selectedDate := if |dates| > 0 then dates[0] else w.selectedDate);
    var r := MovieLoaded(w, cat, movieId);
    assert r == if w1.movie != w.movie || w1.selectedDate != w.selectedDate then DateEffect(w1, cat) else w1;
  }

  /**
   * Choosing another date lists exactly that day's showtimes of the movie, in
   * table order, and clears the chosen showtime; nothing else changes.
   */
  lemma DateChoiceListsShowtimes(w: Wizard, cat: Catalogue, date: string)
    requires date != w.selectedDate && date != "" && w.movie.Some?
    ensures var r := DateSelected(w, cat, date);
      r == w.(selectedDate := date, schedules := ShowtimesFor(cat.schedules, w.movie.value.id, date),
              selectedScheduleId := "")
    ensures forall s :: s in DateSelected(w, cat, date).schedules <==>
      s in cat.schedules && s.movieId == w.movie.value.id && s.date == date
  {
  }

  /**
   * Choosing another listed showtime whose studio is listed: the studio and the
   * new seat map are taken, the unit price becomes the rate table's price for
   * the studio's type and the date's day type (or stays as it was when the
   * table has no such rule), the total is recomputed, and the selection is
   * kept as it was.
   */
  lemma ShowtimeChoiceSetsPrice(w: Wizard, cat: Catalogue, id: string, generated: map<string, Seat>)
    requires id != w.selectedScheduleId && id != ""
    requires Resolve(w.schedules, cat.studios, id).Some?
    ensures var sh := Resolve(w.schedules, cat.studios, id).value;
      var r := ScheduleSelected(w, cat, id, generated);
      && r.selectedScheduleId == id
      && r.selectedStudio == Some(sh.studio)
      && r.seats == generated
      && r.ticketPrice == (match PriceFor(cat.priceRules, sh.studio.studioType, DayTypeOf(sh.schedule.date))
                           case Some(p) => p case None => w.ticketPrice)
      && r.selectedSeats == w.selectedSeats
      && r.totalPrice == |w.selectedSeats| * r.ticketPrice
      && r.step == w.step && r.schedules == w.schedules
  {
  }

  /**
   * A showtime id that is not listed, or whose studio is not, changes only the
   * chosen id and recomputes the total; on a valid state the total is already
   * right, so only the chosen id changes.
   */
  lemma UnresolvedShowtime(w: Wizard, cat: Catalogue, id: string, generated: map<string, Seat>)
    requires id != w.selectedScheduleId
    requires Resolve(w.schedules, cat.studios, id).None?
    ensures ScheduleSelected(w, cat, id, generated) == Settled(w.(selectedScheduleId := id))
    ensures ValidWizard(w, cat) ==> ScheduleSelected(w, cat, id, generated) == w.(selectedScheduleId := id)
  {
  }

  /**
   * Toggling a seat: the seat map's entry under the seat's id is the seat
   * marked available (when it was selected) or selected, every other entry
   * is unchanged, and the total follows the selection's new length.
   */
  lemma SeatToggleEffect(w: Wizard, seat: Seat)
    ensures var r := SeatToggled(w, seat);
      && seat.id in r.seats
      && r.seats[seat.id] == seat.(status := if HasId(w.selectedSeats, seat.id) then Available else Selected)
      && (forall k :: k in w.seats && k != seat.id ==> k in r.seats && r.seats[k] == w.seats[k])
      && r.seats.Keys == w.seats.Keys + {seat.id}
      && r.totalPrice == |r.selectedSeats| * w.ticketPrice
      && r.step == w.step && r.ticketPrice == w.ticketPrice
  {
  }

  /** A click on a booked cell does nothing; a click on any other cell toggles its seat. */
  lemma ClickGuard(w: Wizard, seat: Seat)
    ensures OnClick(seat).None? <==> seat.status == Booked
    ensures OnClick(seat).Some? ==> SeatToggled(w, OnClick(seat).value) == SeatToggled(w, seat)
  {
  }

  /**
   * A state whose seat map agrees with its selection still agrees after a seat
   * of the map is toggled, but after another showtime is chosen it agrees only
   * if nothing was selected.
   */
  lemma AgreementBetweenShowtimes(w: Wizard, cat: Catalogue, seat: Seat, id: string,
                                  generated: map<string, Seat>, booked: string -> bool)
    requires Consistent(w.seats, w.selectedSeats) && seat.id in w.seats
    requires id != w.selectedScheduleId && id != "" && Resolve(w.schedules, cat.studios, id).Some?
    requires IsGeneratedSeatMap(generated, Resolve(w.schedules, cat.studios, id).value.studio.id, booked)
    ensures var r := SeatToggled(w, seat); Consistent(r.seats, r.selectedSeats)
    ensures var r := ScheduleSelected(w, cat, id, generated);
      Consistent(r.seats, r.selectedSeats) <==> w.selectedSeats == []
  {
    ToggleKeepsConsistent(w.seats, w.selectedSeats, seat);
    var sid := Resolve(w.schedules, cat.studios, id).value.studio.id;
    RegeneratedMapAgreesOnlyWithEmptySelection(generated, sid, booked, w.selectedSeats);
  }

  /**
   * Opening the booking screen of "Inception" on the shipped data: its one
   * date is chosen and its one showtime is listed, nothing chosen yet.
   */
  lemma ShippedInceptionOpens(w: Wizard, cat: Catalogue, movieId: string)
    requires w == Initial && cat == Shipped && movieId == "1"
    ensures MovieLoaded(w, cat, movieId) ==
      Initial.(movie := Some(Movies[0]), availableDates := ["2023-09-20"],
               selectedDate := "2023-09-20", schedules := [Schedules[0]])
  {
    FindAt(cat.movies, (m: Movie) => m.id == movieId, 0);
    InceptionShowtimes(movieId);
    LoadChoosesFirstDate(w, cat, movieId);
  }

  /**
   * Choosing the one listed showtime of "Inception": it plays in Studio A, a
   * regular studio, on a Wednesday, so the studio's seat map is shown and a
   * ticket costs 10.
   */
  lemma InceptionShowtimeChosen(w: Wizard, generated: map<string, Seat>)
    requires w == Initial.(movie := Some(Movies[0]), availableDates := ["2023-09-20"],
                           selectedDate := "2023-09-20", schedules := [Schedules[0]])
    ensures ScheduleSelected(w, Shipped, "1", generated) ==
      w.(selectedScheduleId := "1", selectedStudio := Some(Studios[0]), seats := generated, ticketPrice := 10)
    ensures ScheduleById(w.schedules, "1") == Some(Schedules[0])
  {
    var w1 := w.(selectedScheduleId := "1");
    ShippedShowtimeStudio(0);
    ScheduleFound(w1.schedules, 0);
    StudioFound(Studios, 0);
    ScheduleEffectResolved(w1, Shipped, generated, Showing(Schedules[0], Studios[0]));
    ShippedShowingPrice(Schedules[0].date, Studios[0].studioType);
  }

  /** Two different seats clicked on an empty selection are selected in click order, at twice the unit price. */
  lemma TwoSeatsChosen(w: Wizard, a1: Seat, a2: Seat)
    requires w.selectedSeats == [] && a1.id != a2.id
    ensures SeatToggled(SeatToggled(w, a1), a2) ==
      w.(selectedSeats := [a1, a2],
         seats := w.seats[a1.id := a1.(status := Selected)][a2.id := a2.(status := Selected)],
         totalPrice := 2 * w.ticketPrice)
  {
    assert [] + [a1] == [a1];
    assert !HasId([a1], a2.id);
    assert [a1] + [a2] == [a1, a2];
  }

  /**
   * A whole booking of "Inception" on the shipped data: open its page, choose
   * its showtime, click seats A1 and A2 of the generated map (both free),
   * choose a payment method and continue twice. The total is 20 and the
   * summary handed on holds the movie, the showtime, Studio A, exactly the
   * two seats, the total and the payment method.
   */
  lemma ShippedBookingScenario(cat: Catalogue, movieId: string, generated: map<string, Seat>,
                               booked: string -> bool, pm: PaymentMethod)
    requires cat == Shipped && movieId == "1"
    requires IsGeneratedSeatMap(generated, "1", booked)
    requires !booked(SeatId("A", 1)) && !booked(SeatId("A", 2))
    ensures var w1 := ScheduleSelected(MovieLoaded(Initial, cat, movieId), cat, "1", generated);
      var a1, a2 := NewSeat("A", 1, booked), NewSeat("A", 2, booked);
      && w1.ticketPrice == 10
      && a1.id in w1.seats && w1.seats[a1.id] == a1 && a1.status == Available
      && a2.id in w1.seats && w1.seats[a2.id] == a2 && a2.status == Available
      && var w3 := SeatToggled(SeatToggled(w1, a1), a2);
      && w3.totalPrice == 20
      && var w5 := Continued(Continued(w3.(paymentMethod := pm)));
      && w5.step == 3
      && Summary(w5) == Some(BookingSummary(Some(Movies[0]), Some(Schedules[0]), Some(Studios[0]), [a1, a2], 20, pm))
  {
    ShippedInceptionOpens(Initial, cat, movieId);
    var w0 := MovieLoaded(Initial, cat, movieId);
    InceptionShowtimeChosen(w0, generated);
    var a1, a2 := NewSeat("A", 1, booked), NewSeat("A", 2, booked);
    assert "A" in RowNames;
    assert HasNewSeat(generated, "A", 1, booked) && HasNewSeat(generated, "A", 2, booked);
    assert a1.id != a2.id by {
      if a1.id == a2.id {
        SeatIdInjective("A", 1, "A", 2);
      }
    }
    TwoSeatsChosen(ScheduleSelected(w0, cat, "1", generated), a1, a2);
  }

  /** The shipped showtimes of "Inception": one, on 2023-09-20. */
  lemma InceptionShowtimes(movieId: string)
    requires movieId == "1"
    ensures MovieDates(Schedules, movieId) == ["2023-09-20"]
    ensures ShowtimesFor(Schedules, movieId, "2023-09-20") == [Schedules[0]]
  {
    assert Schedules == Schedules[..1] + Schedules[1..];
    FilterConcat(Schedules[..1], Schedules[1..], (s: Schedule) => s.movieId == movieId);
    assert MovieSchedules(Schedules, movieId) == [Schedules[0]];
    assert DatesOf([Schedules[0]]) == ["2023-09-20"];
    FilterConcat(Schedules[..1], Schedules[1..], (s: Schedule) => s.movieId == movieId && s.date == "2023-09-20");
  }

  // ---------------------------------------------------------------------------
  // The screen.

  /** The booking screen's state and its handlers. */
  class BookingWizard {
    const catalogue: Catalogue
    var movie: Option<Movie>
    var selectedDate: string
    var availableDates: seq<string>
    var selectedScheduleId: string
    var schedules: seq<Schedule>
    var selectedStudio: Option<Studio>
    var seats: map<string, Seat>
    var selectedSeats: seq<Seat>
    var paymentMethod: PaymentMethod
    var ticketPrice: int
    var totalPrice: int
    var step: int

    function State(): Wizard
      reads this
    {
      Wizard(movie, selectedDate, availableDates, selectedScheduleId, schedules, selectedStudio,
             seats, selectedSeats, paymentMethod, ticketPrice, totalPrice, step)
    }

    ghost predicate Valid()
      reads this
    {
      ValidWizard(State(), catalogue)
    }

    /** The screen mounted on `/booking/{movieId}`: the initial state, then the effects of the first render. */
    constructor(catalogue: Catalogue, movieId: string)
      ensures this.catalogue == catalogue
      ensures Valid() && State() == MovieLoaded(Initial, catalogue, movieId)
    {
      this.catalogue := catalogue;
      movie := None;
      selectedDate := "";
      availableDates := [];
      selectedScheduleId := "";
      schedules := [];
      selectedStudio := None;
      seats := map[];
      selectedSeats := [];
      paymentMethod := Cash;
      ticketPrice := 0;
      totalPrice := 0;
      step := 1;
      new;
      InitialValid(catalogue);
      LoadMovie(movieId);
    }

    /** The date effect. */
    method RefreshSchedules()
      modifies this
      ensures State() == DateEffect(old(State()), catalogue)
    {
      if selectedDate != "" && movie.Some? {
        schedules := ShowtimesFor(catalogue.schedules, movie.value.id, selectedDate);
        selectedScheduleId := "";
      }
    }

    /**
     * The movie effect. React runs it on mount and whenever the route
     * parameter `movieId` changes, so callers call it once per new id; the
     * screen keeps no copy of the id to skip a repeated one.
     */
    method LoadMovie(movieId: string)
      requires Valid()
      modifies this
      ensures Valid() && State() == MovieLoaded(old(State()), catalogue, movieId)
    {
      ghost var w0 := State();
      MovieLoadedValid(w0, catalogue, movieId);
      if movieId != "" {
        var found := Find(catalogue.movies, (m: Movie) => m.id == movieId);
        if found.Some? {
          var previousMovie, previousDate := movie, selectedDate;
          movie := found;
          var dates := MovieDates(catalogue.schedules, movieId);
          availableDates := dates;
          if |dates| > 0 {
            selectedDate := dates[0];
          }
          ghost var w1 := State();
          assert w1 == w0.(movie := Some(found.value), availableDates := dates,
                           selectedDate := if |dates| > 0 then dates[0] else w0.selectedDate);
          if movie != previousMovie || selectedDate != previousDate {
            RefreshSchedules();
            assert State() == DateEffect(w1, catalogue);
          }
        }
      }
    }

    /** A date button. */
    method SelectDate(date: string)
      requires Valid()
      modifies this
      ensures Valid() && State() == DateSelected(old(State()), catalogue, date)
    {
      DateSelectedValid(State(), catalogue, date);
      if date != selectedDate {
        selectedDate := date;
        RefreshSchedules();
      }
    }

    /**
     * A showtime button. `booked` stands for the random draw that marks each
     * seat of the new seat map booked or available.
     */
    method SelectSchedule(id: string, booked: string -> bool)
      requires Valid()
      modifies this
      ensures Valid() && State() == ScheduleSelected(old(State()), catalogue, id, seats)
      ensures id != old(selectedScheduleId) && id != "" && Resolve(old(schedules), catalogue.studios, id).Some? ==>
        IsGeneratedSeatMap(seats, Resolve(old(schedules), catalogue.studios, id).value.studio.id, booked)
    {
      if id != selectedScheduleId {
        ghost var before := State();
        selectedScheduleId := id;
        ApplyShowtime(booked);
        totalPrice := |selectedSeats| * ticketPrice;
        ScheduleSelectedValid(before, catalogue, id, seats);
      }
    }

    /** The showtime effect: studio, a newly generated seat map and the unit price of the chosen showtime. */
    method ApplyShowtime(booked: string -> bool)
      modifies this
      ensures State() == ScheduleEffect(old(State()), catalogue, seats)
      ensures selectedScheduleId != "" && Resolve(schedules, catalogue.studios, selectedScheduleId).Some? ==>
        IsGeneratedSeatMap(seats, Resolve(schedules, catalogue.studios, selectedScheduleId).value.studio.id, booked)
    {
      ghost var w0 := State();
      var schedule := ScheduleById(schedules, selectedScheduleId);
      var studio := if schedule.Some? then StudioById(catalogue.studios, schedule.value.studioId) else None;
      if selectedScheduleId != "" && schedule.Some? && studio.Some? {
        ghost var sh := Showing(schedule.value, studio.value);
        var price := ShowingPrice(catalogue.priceRules, Showing(schedule.value, studio.value));
        var generated := GenerateSeatsForStudio(studio.value.id, booked);
        selectedStudio := studio;
        seats := generated;
        if price.Some? {
          ticketPrice := price.value;
        }
        ScheduleEffectResolved(w0, catalogue, generated, sh);
      } else {
        ScheduleEffectUnresolved(w0, catalogue, seats);
      }
    }

    /** handleSeatSelect, and the total that follows it. */
    method SelectSeat(seat: Seat)
      requires Valid()
      modifies this
      ensures Valid() && State() == SeatToggled(old(State()), seat)
    {
      SeatToggledValid(State(), catalogue, seat);
      if IsSelected(selectedSeats, seat.id) {
        seats := seats[seat.id := seat.(status := Available)];
        selectedSeats := WithoutSeat(selectedSeats, seat.id);
      } else {
        seats := seats[seat.id := seat.(status := Selected)];
        selectedSeats := selectedSeats + [seat];
      }
      totalPrice := |selectedSeats| * ticketPrice;
    }

    /** A click on a cell of the seat grid: booked seats are ignored there, before the handler. */
    method ClickSeat(seat: Seat)
      requires Valid()
      modifies this
      ensures Valid()
      ensures State() == if seat.status == Booked then old(State()) else SeatToggled(old(State()), seat)
    {
      var handed := OnClick(seat);
      if handed.Some? {
        SelectSeat(handed.value);
      }
    }

    /** The payment radio buttons. */
    method SetPaymentMethod(method': PaymentMethod)
      requires Valid()
      modifies this
      ensures Valid() && State() == old(State()).(paymentMethod := method')
    {
      paymentMethod := method';
    }

    /** handleContinue: moves a step forward when its guard allows, or hands the booking on from step 3. */
    method Continue() returns (summary: Option<BookingSummary>)
      requires Valid()
      modifies this
      ensures Valid() && State() == Continued(old(State()))
      ensures summary == Summary(old(State()))
    {
      StepChangesValid(State(), catalogue);
      summary := None;
      if step == 1 && selectedScheduleId != "" {
        step := 2;
      } else if step == 2 && |selectedSeats| > 0 {
        step := 3;
      } else if step == 3 {
        summary := Some(BookingSummary(movie, ScheduleById(schedules, selectedScheduleId), selectedStudio,
                                       selectedSeats, totalPrice, paymentMethod));
      }
    }

    /** handleBack. */
    method Back()
      requires Valid()
      modifies this
      ensures Valid() && State() == Backed(old(State()))
    {
      StepChangesValid(State(), catalogue);
      if step > 1 {
        step := step - 1;
      }
    }
  }
}
