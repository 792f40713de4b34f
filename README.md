# Cinema front end: booking wizard, seat map, catalogue screens and routing

This project models in Dafny the logic of a small cinema web front end, MetaCine, and proves properties of it.

- **Customers** browse movies by genre, open the booking wizard for a movie and go through three steps:
  - pick a date and a showtime;
  - pick seats on a seat map;
  - choose how to pay and confirm.
- **Administrators** search, add, edit and delete movies.
- **A router** decides which screen a path shows. Private screens sit behind a guard that checks sign-in and role.

Modules, one file each:

| file | module | what it models |
|---|---|---|
| `types.dfy` | `Types` | The shared records and unions: `Movie`, `Studio`, `Schedule`, `Seat`, `PriceRule` and the enumerations. The key `${row}${number}` a seat is stored under is `SeatId`. |
| `mockdata.dfy` | `MockData` | The reference tables: movies, studios, showtimes and the rate table. It also has the seat-map generator as an imperative method: a map filled row by row inside two loops. |
| `calendar.dfy` | `Calendar` | How a showtime's `YYYY-MM-DD` date becomes a day of the week, and so a weekday or weekend price. It parses the ISO date-only forms and gives a proleptic Gregorian day number. |
| `seatgrid.dfy` | `SeatGrid` | The seat grid: sorted distinct rows, the width of the widest row, the cell lookup by key, and the click guard that ignores booked seats. |
| `homepage.dfy` | `HomePage` | The genre tabs, the genre filter and the two links on each movie card. |
| `routes.dfy` | `Routes` | The route table and the `PrivateRoute` guard: spinner, `/login`, a role-based redirect, or the page itself. |
| `moviemanagement.dfy` | `MovieManagement` | The admin catalogue screen as a class whose fields are the screen's state variables, with search, add, edit, delete, save and form input. |
| `bookingpage.dfy` | `BookingPage` | The booking wizard. |
| `seqs.dfy` | `Seqs` | JavaScript's `filter`, `find` and `[...new Set(xs)]` on sequences. |
| `text.dfy` | `Text` | `parseInt`, `toLowerCase`, `includes`, number-to-string and the default string sort. |

The booking wizard appears in two forms:

- pure transition functions on a `Wizard` value;
- the class `BookingWizard`, whose fields are the twelve state variables of the screen and whose methods are its handlers. Each method is proved to produce the transition function's result.

A handler runs as one atomic step, together with the effects its state change sets off:

1. the date effect (the day's showtimes);
2. the showtime effect (studio, a new seat map, the unit price);
3. the total-price effect.

An effect runs only when one of its dependencies really changed, so choosing the date or showtime that is already chosen does nothing.

Among the proved properties:

- **Wizard invariant.** The wizard keeps the following true:
  - the step is in 1..3;
  - the total is the seat count times the unit price;
  - no seat id is selected twice;
  - the listed showtimes are the chosen movie's on the chosen date;
  - the unit price is 0 or the price of some rule of the rate table (which rule is stated by the showtime lemmas, not by the invariant).
- **Seat toggles.** Toggling a seat removes it from its place or appends it, and toggling twice undoes itself.
- **Seat map and selection.** The seat map agrees with the selection (a seat is marked selected exactly when its id is selected) across toggles. Choosing another showtime regenerates the map but keeps the selection, so the agreement then holds only if nothing was selected.
- **Seat-map generator.** It yields exactly the keys A..H × 1..n: 80 seats for studio "3" and 96 otherwise. None of them is selected.
- **Seat grid.** On a generated map, the grid shows every seat in its own row and column.
- **Genre tabs.** The tabs are "All" followed by the distinct genres in first-mention order, and every tab shows at least one movie.
- **Admin catalogue.** Search ignores case, delete keeps the order of the other movies, and an edit saved twice equals one save.
- **Routing.** The guard and the route table send each visitor where the code does. A movie card's details link has no route and falls through to the home page.

## Model

| member | source | states |
|---|---|---|
| Types.SeatIdInjective | src/data/mockData.ts:208 | Seat keys `${row}${i}` with one-letter rows name one (row, number) pair, so the generator never overwrites a seat |
| Text.ParseDecimal | src/pages/admin/MovieManagement.tsx:91 | parseInt reads back the decimal rendering of every natural number |
| Text.ParseDigits | src/pages/admin/MovieManagement.tsx:91 | A non-empty run of decimal digits parses to its value |
| Text.ParseNoDigits | src/pages/admin/MovieManagement.tsx:91 | A text with no digit at all parses to NaN |
| Text.Decimal | src/data/mockData.ts:208 | `toString` of a natural number is a non-empty run of decimal digits, one digit exactly below 10 (seat ids and Date.now() ids) |
| Text.DecimalInjective | src/pages/admin/MovieManagement.tsx:77 | Distinct numbers have distinct decimal renderings (Date.now().toString() ids, seat numbers in keys) |
| Text.Includes | src/pages/admin/MovieManagement.tsx:30-31 | `includes` holds exactly when the needle occurs at some position of the text |
| Text.IncludesEmpty | src/pages/admin/MovieManagement.tsx:30-31 | Every text includes the empty string |
| Text.ToLower | src/pages/admin/MovieManagement.tsx:30-31 | Lowercasing keeps the length and lowercases each character |
| Text.ToLowerIdempotent | src/pages/admin/MovieManagement.tsx:30-31 | Lowercasing twice is lowercasing once |
| Text.BelowTotal | src/components/ui/SeatGrid.tsx:11 | The default sort order compares any two different strings |
| Text.BelowTransitive | src/components/ui/SeatGrid.tsx:11 | The default sort order is transitive |
| Text.SortedSet | src/components/ui/SeatGrid.tsx:11 | Sorting a set gives a strictly ascending sequence with exactly the set's elements |
| Seqs.Filter | src/pages/customer/HomePage.tsx:18 | `filter` keeps exactly the elements satisfying the predicate and is never longer |
| Seqs.FilterConcat | src/pages/customer/HomePage.tsx:18 | `filter` of a concatenation is the concatenation of the filters (order is kept) |
| Seqs.Find | src/pages/customer/BookingPage.tsx:32 | `find` is some value iff an element satisfies the predicate, and then it is the first such element |
| Seqs.Distinct | src/pages/customer/BookingPage.tsx:38 | `[...new Set(xs)]` has no duplicates and exactly the elements of xs |
| Seqs.DistinctOrder | src/pages/customer/BookingPage.tsx:38 | `[...new Set(xs)]` lists the values in first-occurrence order |
| MockData.OneRulePerPair | src/data/mockData.ts:170-175 | The rate table has exactly one rule for each (studio type, day type) pair |
| MockData.SchedulesResolve | src/data/mockData.ts:87-120 | Every showtime names a listed movie and a listed studio, and showtime ids are unique |
| MockData.RowNamesDistinct | src/data/mockData.ts:203 | The rows A..H are one letter each and pairwise different |
| MockData.FillRow | src/data/mockData.ts:207-215 | The inner loop adds seats 1..n of one row under their keys, keeps every earlier entry and adds exactly n entries |
| MockData.GenerateSeatsForStudio | src/data/mockData.ts:201-219 | The generated map holds, for each row A..H and number 1..n (n = 10 for studio "3", else 12), the seat with that id, row, number and drawn status, and nothing else |
| MockData.GeneratedSeatCount | src/data/mockData.ts:203-204 | The map has 80 seats for studio "3" and 96 for any other id, whatever the studio's type or capacity |
| MockData.GeneratedNeverSelected | src/data/mockData.ts:208-213 | Every generated entry is stored under its own id and is booked or available, never selected |
| MockData.GeneratedSeatMapUnique | src/data/mockData.ts:201-219 | Given the same draw, the generator's result is fully determined |
| Calendar.DayOfWeek | src/pages/customer/BookingPage.tsx:70-71 | getDay of a date is in 0..6 (0 is Sunday) |
| Calendar.NextDay | src/pages/customer/BookingPage.tsx:70-71 | The calendar day after a valid date is a valid date |
| Calendar.NextDayWeekday | src/pages/customer/BookingPage.tsx:70-71 | The day after a date has the next day number and the next weekday (mod 7) |
| Calendar.ParseIsoDate | src/pages/customer/BookingPage.tsx:70 | `new Date(s)` on the date-only ISO forms yields only dates that exist in the calendar |
| Calendar.ParseIsoText | src/pages/customer/BookingPage.tsx:70 | The `YYYY-MM-DD` text of every valid date with a four-digit year parses back to that date |
| Calendar.ParsedIsoText | src/pages/customer/BookingPage.tsx:70 | A ten-character text that parses is exactly the `YYYY-MM-DD` text of the date it parses to |
| Calendar.PadValue | src/pages/customer/BookingPage.tsx:70 | A number below 10^w is read back from its w-digit zero-padded rendering |
| Calendar.PadDigits | src/pages/customer/BookingPage.tsx:70 | Zero-padding a digit field's value to the field's width gives the field back |
| Calendar.DayTypeOf | src/pages/customer/BookingPage.tsx:71-72 | The day type is Weekend exactly when the date is a Saturday or a Sunday |
| Calendar.September2023 | src/pages/customer/BookingPage.tsx:70-71 | Day d of September 2023 has weekday (d + 4) mod 7 |
| Calendar.DayTypeSeptember2023 | src/pages/customer/BookingPage.tsx:70-72 | A `2023-09-dd` date is priced as weekend exactly on that month's Saturdays and Sundays |
| Calendar.ShowtimeDatesAreWeekdays | src/pages/customer/BookingPage.tsx:70-72 | The showtime dates 2023-09-20 and 2023-09-21 are weekdays |
| Calendar.FollowingWeekend | src/pages/customer/BookingPage.tsx:70-72 | 2023-09-23 and 2023-09-24 are priced as weekend |
| Calendar.InvalidDateIsWeekday | src/pages/customer/BookingPage.tsx:70-72 | An unparsable date (getDay is NaN) gets the weekday price |
| SeatGrid.Rows | src/components/ui/SeatGrid.tsx:11 | `rows` is every row label of the map's seats once, in ascending order |
| SeatGrid.MaxRowSize | src/components/ui/SeatGrid.tsx:14-16 | Math.max over row sizes bounds every listed row and is reached by one of them |
| SeatGrid.LargestRowIsARow | src/components/ui/SeatGrid.tsx:14-16 | `maxSeats` is at least every seat's row size, and equals one when the map is not empty |
| SeatGrid.Grid | src/components/ui/SeatGrid.tsx:26-35 | The grid has one line per row and `maxSeats` cells per line |
| SeatGrid.Lines | src/components/ui/SeatGrid.tsx:26-35 | One line per row label, each `n` cells long |
| SeatGrid.GridLookup | src/components/ui/SeatGrid.tsx:30-35 | Cell i of a row shows the seat stored under `${row}${i+1}`, or is empty when there is none |
| SeatGrid.DrawnSeats | src/components/ui/SeatGrid.tsx:26-35 | A seat is drawn in some cell exactly when it is stored under `${row}${n}` for a grid row and n in 1..maxSeats; a seat under any other key appears in no cell |
| SeatGrid.DrawnCellIsStored | src/components/ui/SeatGrid.tsx:30-35 | A cell that shows a seat shows the one stored under its row label and a number in 1..maxSeats |
| SeatGrid.StoredSeatIsDrawn | src/components/ui/SeatGrid.tsx:30-35 | A seat stored under `${row}${n}` of a grid row, n in 1..maxSeats, is shown in that row's nth cell |
| SeatGrid.OnClick | src/components/ui/SeatGrid.tsx:47 | A click reaches the handler, with that seat, exactly when the seat is not booked |
| SeatGrid.SortedUnique | src/components/ui/SeatGrid.tsx:11 | Two strictly sorted sequences with the same elements are equal, so `rows` is determined by the labels |
| SeatGrid.GeneratedRowSize | src/components/ui/SeatGrid.tsx:14-16 | Every row of a generated map has exactly the studio's seats per row |
| SeatGrid.GeneratedGrid | src/components/ui/SeatGrid.tsx:11-35 | For a generated map, the rows are A..H, every line is as wide as a row, and every cell shows the generated seat of its row and number |
| HomePage.Genres | src/pages/customer/HomePage.tsx:13 | The tabs are "All" followed by each genre of the movies once, in first-mention order |
| HomePage.GenreOf | src/pages/customer/HomePage.tsx:13 | One genre per movie, the genre of the movie at the same position |
| HomePage.FilteredMovies | src/pages/customer/HomePage.tsx:16-18 | "All" shows every movie; another tab shows exactly the movies of that genre |
| HomePage.EveryGenreTabShowsMovies | src/pages/customer/HomePage.tsx:13-18 | Every tab shows at least one movie of a non-empty catalogue |
| HomePage.FilterKeepsOrder | src/pages/customer/HomePage.tsx:18 | The genre filter keeps catalogue order |
| HomePage.ShippedGenres | src/pages/customer/HomePage.tsx:13 | On the shipped movies the tabs are All, Sci-Fi, Action, Drama |
| HomePage.RepeatedFirstGenre | src/pages/customer/HomePage.tsx:13 | A genre list a, b, a, c of distinct a, b, c deduplicates to a, b, c |
| HomePage.BookingPath | src/pages/customer/HomePage.tsx:24-26 | The booking link is `/booking/` followed by the movie id |
| HomePage.DetailsPath | src/pages/customer/HomePage.tsx:20-22 | The details link is `/movies/` followed by the movie id |
| Routes.RoleHome | src/App.tsx:38-47 | A stored role "admin" goes to /admin, "operator" to /operator, anything else or no role to / |
| Routes.PrivateRoute | src/App.tsx:19-51 | Spinner while loading; /login when signed out; the role home when roles are required and refused; the page exactly when signed in and no role is required or the role is accepted |
| Routes.Route | src/App.tsx:57-83 | /login and / are public; /booking/:movieId is the booking screen of that id behind role customer; /admin and /admin/movies are the dashboard and the movie list behind role admin; every other path redirects to / |
| Routes.BookingLinkRoutes | src/App.tsx:66-69 | A movie card's booking link reaches that movie's booking screen, for customers |
| Routes.DetailsLinkRedirectsHome | src/App.tsx:82 | A movie card's details link matches no route and redirects to / |
| Routes.PrivateScreensNeedSignIn | src/App.tsx:28-34 | A guarded path shows the spinner while loading and sends a signed-out visitor to /login |
| Routes.ShownScreens | src/App.tsx:19-83 | A screen is shown exactly for public paths, or for guarded paths once loaded, signed in and authorised |
| MovieManagement.SearchResults | src/pages/admin/MovieManagement.tsx:28-32 | The list shows exactly the movies whose lowercased title or genre contains the lowercased term |
| MovieManagement.EmptySearchKeepsAll | src/pages/admin/MovieManagement.tsx:28-32 | An empty search shows the whole list in order |
| MovieManagement.SearchIgnoresCase | src/pages/admin/MovieManagement.tsx:30-31 | Searching for the lowercased term gives the same list as the term itself |
| MovieManagement.WithoutMovie | src/pages/admin/MovieManagement.tsx:56 | A delete keeps exactly the movies with another id |
| MovieManagement.DeleteKeepsOrder | src/pages/admin/MovieManagement.tsx:56 | A delete keeps the order of the remaining movies |
| MovieManagement.DeleteAbsentId | src/pages/admin/MovieManagement.tsx:56 | Deleting an id no movie has changes nothing |
| MovieManagement.Merged | src/pages/admin/MovieManagement.tsx:68-72 | An edit keeps the length, replaces each movie with the form's id by the form's movie and leaves the others |
| MovieManagement.MergeIdempotent | src/pages/admin/MovieManagement.tsx:68-72 | Saving the same edit twice equals saving it once, and no id changes |
| MovieManagement.NewMovie | src/pages/admin/MovieManagement.tsx:75-78 | An added movie is the form's movie with the clock reading as its id |
| MovieManagement.DeleteUndoesAdd | src/pages/admin/MovieManagement.tsx:54-81 | Deleting the id of a just-added movie restores the list, when no earlier movie had that id |
| MovieManagement.WithField | src/pages/admin/MovieManagement.tsx:86-93 | An input stores parseInt of the text in releaseYear or duration and the text itself in the other fields, leaving the rest of the form |
| MovieManagement.NumericFieldReadsDigits | src/pages/admin/MovieManagement.tsx:91 | Typing a number's digits into a numeric field stores that number; typing no digit stores NaN |
| MovieManagement.MovieManagementScreen.constructor | src/pages/admin/MovieManagement.tsx:13-25 | The screen opens on the shipped movies, no search, a closed modal and a blank form of the current year and 120 minutes |
| MovieManagement.MovieManagementScreen.SetSearchTerm | src/pages/admin/MovieManagement.tsx:116 | The search box sets the term and nothing else |
| MovieManagement.MovieManagementScreen.AddMovie | src/pages/admin/MovieManagement.tsx:34-46 | Add mode, a blank form, an open modal; the list is unchanged |
| MovieManagement.MovieManagementScreen.EditMovie | src/pages/admin/MovieManagement.tsx:48-52 | Edit mode, the movie in the form, an open modal; the list is unchanged |
| MovieManagement.MovieManagementScreen.DeleteMovie | src/pages/admin/MovieManagement.tsx:54-58 | A confirmed delete removes the id's movies; a declined one changes nothing |
| MovieManagement.MovieManagementScreen.SaveMovie | src/pages/admin/MovieManagement.tsx:60-84 | Alerts, changing nothing, iff title or genre is empty; otherwise an edit merges, an add appends, and the modal closes |
| MovieManagement.MovieManagementScreen.InputChange | src/pages/admin/MovieManagement.tsx:86-93 | The form becomes WithField of the old form; nothing else changes |
| MovieManagement.MovieManagementScreen.CloseModal | src/pages/admin/MovieManagement.tsx:209 | The modal closes and nothing else changes |
| BookingPage.DatesOf | src/pages/customer/BookingPage.tsx:38 | The showtimes' dates, one per showtime, in order |
| BookingPage.MovieSchedules | src/pages/customer/BookingPage.tsx:37 | Exactly the showtimes of the movie |
| BookingPage.MovieDates | src/pages/customer/BookingPage.tsx:37-39 | `availableDates` is each date of the movie's showtimes once, in order of first showtime |
| BookingPage.ShowtimesFor | src/pages/customer/BookingPage.tsx:51-53 | Exactly the showtimes of the movie on the date |
| BookingPage.PriceFor | src/pages/customer/BookingPage.tsx:74-76 | The price of the first rule for the studio type and day type, and none iff no rule matches |
| BookingPage.ScheduleById | src/pages/customer/BookingPage.tsx:62 | The first listed showtime with the id, and none exactly when no showtime has it |
| BookingPage.StudioById | src/pages/customer/BookingPage.tsx:64 | The first studio with the id, and none exactly when no studio has it |
| BookingPage.ShowingPrice | src/pages/customer/BookingPage.tsx:69-76 | A price exactly when some rule matches the studio's type and the date's day type, and then that rule's price |
| BookingPage.ShippedPrices | src/data/mockData.ts:170-175 | The shipped rate table prices 10, 12, 15 and 18 |
| BookingPage.ShippedShowtimePrices | src/pages/customer/BookingPage.tsx:60-80 | Every shipped showtime resolves to its studio and costs 15 in the premiere studio and 10 elsewhere |
| BookingPage.ShippedShowtimeResolves | src/pages/customer/BookingPage.tsx:62-65 | Each shipped showtime resolves to its own studio, of premiere type exactly for studio "3", on 2023-09-20 or 2023-09-21 |
| BookingPage.Resolve | src/pages/customer/BookingPage.tsx:62-65 | The showtime with the chosen id and the studio it names, when both are listed |
| BookingPage.ScheduleFound | src/pages/customer/BookingPage.tsx:62 | In a table whose earlier ids differ, `find` by a showtime's id returns that showtime |
| BookingPage.StudioFound | src/pages/customer/BookingPage.tsx:64 | In a table whose earlier ids differ, `find` by a studio's id returns that studio |
| BookingPage.ResolveFound | src/pages/customer/BookingPage.tsx:62-65 | A found showtime and a found studio give that showing |
| BookingPage.IsSelected | src/pages/customer/BookingPage.tsx:93 | True exactly when a selected seat has the id |
| BookingPage.WithoutSeat | src/pages/customer/BookingPage.tsx:94 | Exactly the selected seats with another id |
| BookingPage.WithoutSeatAt | src/pages/customer/BookingPage.tsx:94 | With ids unique, removing a selected seat's id takes out its position and no other |
| BookingPage.ToggleRemoves | src/pages/customer/BookingPage.tsx:93-100 | Toggling a selected id removes that seat in place and leaves the id unselected |
| BookingPage.ToggleAppends | src/pages/customer/BookingPage.tsx:101-108 | Toggling an unselected id appends the seat |
| BookingPage.ToggleSelection | src/pages/customer/BookingPage.tsx:91-110 | A toggle removes the seat from its place or appends it, keeps ids unique and flips whether the id is selected |
| BookingPage.ToggleTwice | src/pages/customer/BookingPage.tsx:93-102 | Toggling an unselected seat twice restores the selection |
| BookingPage.ToggleTwiceRestores | src/pages/customer/BookingPage.tsx:91-110 | Clicking an available seat and then its now selected cell gives back the seat map, the selection and the total |
| BookingPage.ToggleKeepsConsistent | src/pages/customer/BookingPage.tsx:91-110 | A toggle keeps "marked selected in the map iff its id is selected" |
| BookingPage.DeselectKeepsConsistent | src/pages/customer/BookingPage.tsx:93-100 | Deselecting a seat marks it available and drops its id, keeping the agreement |
| BookingPage.SelectKeepsConsistent | src/pages/customer/BookingPage.tsx:101-108 | Selecting a seat marks it selected and appends it, keeping the agreement |
| BookingPage.WithoutOtherId | src/pages/customer/BookingPage.tsx:94 | Filtering out one id leaves whether any other id is selected unchanged |
| BookingPage.WithoutSeatMembers | src/pages/customer/BookingPage.tsx:94 | After filtering out an id, every remaining seat was selected and none has that id |
| BookingPage.RegeneratedMapAgreesOnlyWithEmptySelection | src/pages/customer/BookingPage.tsx:67 | A regenerated map agrees with the selection only when nothing is selected |
| BookingPage.ContinueStep | src/pages/customer/BookingPage.tsx:112-117 | Continue moves up one step exactly from step 1 with a showtime or from step 2 with a seat; otherwise it stays |
| BookingPage.BackStep | src/pages/customer/BookingPage.tsx:132-136 | Back moves down one step above step 1 and stays at step 1 |
| BookingPage.StepsStayInRange | src/pages/customer/BookingPage.tsx:112-136 | Continue and Back keep the step in 1..3, and Back undoes a Continue that moved |
| BookingPage.Summary | src/pages/customer/BookingPage.tsx:117-128 | The booking is handed on exactly at step 3, with the movie, chosen showtime, studio, seats, total and payment method |
| BookingPage.InitialValid | src/pages/customer/BookingPage.tsx:16-27 | The initial state satisfies the wizard invariant |
| BookingPage.MovieLoadedValid | src/pages/customer/BookingPage.tsx:30-46 | Loading a movie keeps the invariant |
| BookingPage.DateSelectedValid | src/pages/customer/BookingPage.tsx:49-57 | Choosing a date keeps the invariant |
| BookingPage.ScheduleSelectedValid | src/pages/customer/BookingPage.tsx:60-84 | Choosing a showtime keeps the invariant; the new price comes from the rate table |
| BookingPage.SeatToggledValid | src/pages/customer/BookingPage.tsx:87-110 | A toggle keeps the invariant: the total follows the selection and ids stay unique |
| BookingPage.StepChangesValid | src/pages/customer/BookingPage.tsx:112-136 | Continue and Back keep the invariant |
| BookingPage.LoadChoosesFirstDate | src/pages/customer/BookingPage.tsx:30-46 | An empty or unknown id changes nothing (the screen says "Movie not found"); a listed movie is loaded as KnownMovieLoaded states |
| BookingPage.LoadUnknownMovie | src/pages/customer/BookingPage.tsx:30-35 | An empty id or an id no movie has leaves the state as it is |
| BookingPage.LoadKnownMovie | src/pages/customer/BookingPage.tsx:30-57 | A listed movie is loaded with its dates and its first date (the old date when it has none) and that day's showtimes. A changed movie or date clears the chosen showtime whenever a date is set. When neither changed, only the date list is refreshed. Selection, map, step, studio, prices and payment method stay |
| BookingPage.MovieFound | src/pages/customer/BookingPage.tsx:32 | An id some listed movie has is found, and `find` returns a listed movie with that id |
| BookingPage.DateChoiceListsShowtimes | src/pages/customer/BookingPage.tsx:49-57 | Another date lists exactly that day's showtimes of the movie and clears the chosen showtime |
| BookingPage.ShowtimeChoiceSetsPrice | src/pages/customer/BookingPage.tsx:60-89 | Another showtime takes its studio, a new map and the rule's price (the old price if no rule), recomputes the total and keeps the selection |
| BookingPage.UnresolvedShowtime | src/pages/customer/BookingPage.tsx:60-89 | An unlisted showtime or studio changes only the chosen id and recomputes the total; on a state meeting the wizard invariant only the id changes |
| BookingPage.ScheduleEffectResolved | src/pages/customer/BookingPage.tsx:60-80 | A showtime whose studio is listed brings that studio, the new map and its price (the old price when no rule applies) |
| BookingPage.ScheduleEffectUnresolved | src/pages/customer/BookingPage.tsx:60-65 | No chosen showtime, or one whose showtime or studio is not listed, leaves the state as it is |
| BookingPage.SeatToggleEffect | src/pages/customer/BookingPage.tsx:91-110 | A toggle sets the seat's entry available or selected, leaves every other entry and recomputes the total |
| BookingPage.ClickGuard | src/components/ui/SeatGrid.tsx:47 | A click on a booked seat does nothing; any other click toggles that seat |
| BookingPage.AgreementBetweenShowtimes | src/pages/customer/BookingPage.tsx:67 | Map and selection stay in agreement across toggles, but after another showtime only if nothing was selected |
| BookingPage.ShippedInceptionOpens | src/pages/customer/BookingPage.tsx:30-57 | Opening movie "1" on the shipped data gives the initial state with that movie, its one date 2023-09-20 chosen and its one showtime listed |
| BookingPage.InceptionShowtimeChosen | src/pages/customer/BookingPage.tsx:60-84 | Choosing that showtime brings Studio A, the generated seat map and a unit price of 10, and changes nothing else |
| BookingPage.TwoSeatsChosen | src/pages/customer/BookingPage.tsx:87-110 | Two different seats clicked on an empty selection are selected in click order, both marked selected in the map, at twice the unit price |
| BookingPage.ShippedBookingScenario | src/pages/customer/BookingPage.tsx:30-130 | Booking seats A1 and A2 of "Inception" costs 20, and the summary handed on from step 3 holds the movie, the showtime, Studio A, exactly those two seats, 20 and the payment method |
| BookingPage.InceptionShowtimes | src/pages/customer/BookingPage.tsx:37-53 | On the shipped table movie "1" has the one date 2023-09-20 and that day the first showtime only |
| BookingPage.BookingWizard.constructor | src/pages/customer/BookingPage.tsx:16-46 | The screen mounts on the initial state and runs the movie effect, keeping the invariant |
| BookingPage.BookingWizard.RefreshSchedules | src/pages/customer/BookingPage.tsx:49-57 | The date effect |
| BookingPage.BookingWizard.LoadMovie | src/pages/customer/BookingPage.tsx:30-46 | The movie effect and the date effect it sets off, keeping the invariant |
| BookingPage.BookingWizard.SelectDate | src/pages/customer/BookingPage.tsx:227 | A date button and the date effect, keeping the invariant |
| BookingPage.BookingWizard.SelectSchedule | src/pages/customer/BookingPage.tsx:253 | A showtime button, the showtime effect and the total, keeping the invariant; the new map is the generator's |
| BookingPage.BookingWizard.ApplyShowtime | src/pages/customer/BookingPage.tsx:60-84 | The showtime effect: studio, generated map and price of the chosen showtime |
| BookingPage.BookingWizard.SelectSeat | src/pages/customer/BookingPage.tsx:91-110 | handleSeatSelect and the total, keeping the invariant |
| BookingPage.BookingWizard.ClickSeat | src/pages/customer/BookingPage.tsx:305 | A grid click: booked seats are ignored, others are toggled |
| BookingPage.BookingWizard.SetPaymentMethod | src/pages/customer/BookingPage.tsx:382-400 | The payment choice changes only the payment method |
| BookingPage.BookingWizard.Continue | src/pages/customer/BookingPage.tsx:112-130 | handleContinue: the guarded step change, and the booking handed on at step 3 |
| BookingPage.BookingWizard.Back | src/pages/customer/BookingPage.tsx:132-136 | handleBack |

The login screen's redirect after signing in (src/pages/LoginPage.tsx:28-38) is the same switch as the guard's, and `Routes.RoleHome` models both.

## Left out

- The random draw `Math.random() > 0.7`: it is a parameter `booked: string -> bool`. The generator marks a seat booked exactly when `booked` holds for its id, so any outcome of the draw is covered but not its probability.
- `toLowerCase` is modelled for ASCII letters only. JavaScript's full Unicode case mapping is not.
- The default `sort()` compares UTF-16 code units. The model compares Dafny characters lexicographically, which agrees for the one-letter row labels used.
- `parseInt` beyond the decimal digits: hexadecimal prefixes are not involved with radix 10, and the loss of precision for numbers beyond 2^53 is not modelled.
- Calendar.ParseIsoDate: it accepts only the ISO date-only forms (YYYY, YYYY-MM, YYYY-MM-DD) with a four-digit year. Date-time strings, extended years and the engine's fallback formats are not modelled. Day numbers past the end of the month are rejected, as strict ECMAScript and Firefox do; V8 instead rolls them over ("2023-02-30" becomes 2023-03-02). No shipped date is affected.
- Calendar.DayTypeOf: it assumes the host's UTC offset is zero or positive. A date-only string is parsed as UTC midnight while `getDay` reads the local weekday, so hosts west of UTC see the previous day.
- The router percent-decodes `:movieId` before `useParams` returns it; the model compares the raw path segment. `JSON.parse` of a malformed stored `cinemaUser` throws, and so does reading `.role` of a stored `null` (src/App.tsx:38, src/pages/LoginPage.tsx:27); the model has no exception path: the stored role is an `Option<string>` parameter of Routes.RoleHome and Routes.PrivateRoute.
- BookingPage.BookingWizard.LoadMovie: React runs the movie effect only on mount and when `movieId` changes. The class keeps no copy of the route id, so it does not skip a repeated call with the same id. Such a call would choose the first date again and, through the date effect, clear the chosen showtime.
- The React router's case-insensitive matching and optional trailing slash are not modelled: paths are matched exactly.
- MovieManagement.NewMovie: `Date.now()` is a parameter `now`. Nothing in the code makes the resulting id unique, so uniqueness is a precondition of DeleteUndoesAdd rather than a guarantee.
- SeatGrid.MaxRowSize: `Math.max()` of no rows is -Infinity in JavaScript. It is modelled as 0, which draws the same empty grid because there is then no row to draw.
- The layouts, the movie card, the select box, the admin dashboard and the login page's sign-in call are presentation or talk to an authentication service not part of this model. Only the login page's role switch is modelled, by Routes.RoleHome.
- The `User`, `Employee`, `Shift`, `Ticket` and `SalesReport` types and their tables are used by no modelled operation.
- `navigate`, `alert`, `window.confirm`, `localStorage` and the authentication context are inputs or outputs:
  - the confirmation answer is a parameter of DeleteMovie;
  - the alert is SaveMovie's result;
  - the stored role and `isAuthorized` are parameters of PrivateRoute;
  - navigation from step 3 is Continue's returned summary.
- `toLocaleDateString` and `toFixed(2)` are formatting only. Prices are integers, as every rule price is.
- The wizard's handlers are modelled as callable in any step. The screen shows each step's buttons only in that step, and that restriction is not modelled.
- React's rendering and effect scheduling are not modelled. Each handler is one atomic step together with the effects it sets off.
- The details link `/movies/:id` has no route in the table. The model follows the code, where the link falls through to the home page.
