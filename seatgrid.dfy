/**
 * The seat grid of the booking screen: which rows it draws and in what order,
 * how many cells each row gets, which seat each cell shows, and which clicks
 * reach the booking screen's handler.
 */
module SeatGrid {
  import opened Text
  import opened Types
  import opened Seqs
  import opened MockData

  /** The row labels the seats of the map carry. */
  ghost function RowSet(seats: map<string, Seat>): set<string> {
    set k | k in seats :: seats[k].row
  }

  /** `rows`: every row label of the map's seats once, in ascending string order. */
  ghost function Rows(seats: map<string, Seat>): (r: seq<string>)
    ensures StrictlySorted(r) && NoDuplicates(r)
    ensures forall x :: x in r <==> exists k :: k in seats && seats[k].row == x
  {
    var r := SortedSet(RowSet(seats));
    SortedDistinct(r);
    r
  }

  /** The number of seats of the map in row `row`. */
  function RowSize(seats: map<string, Seat>, row: string): nat {
    |set k | k in seats && seats[k].row == row|
  }

  /** Math.max over the sizes of `rows`; no rows at all give no cells. */
  function MaxRowSize(seats: map<string, Seat>, rows: seq<string>): (m: nat)
    ensures forall r :: r in rows ==> RowSize(seats, r) <= m
    ensures rows != [] ==> exists r :: r in rows && RowSize(seats, r) == m
    ensures rows == [] ==> m == 0
  {
    if rows == [] then 0
    else
      var rest := MaxRowSize(seats, rows[1..]);
      assert forall r :: r in rows[1..] ==> r in rows;
      if rows[1..] == [] || RowSize(seats, rows[0]) >= rest then RowSize(seats, rows[0]) else rest
  }

  /** `maxSeats`: the size of the largest row, so every seat's row fits in it. */
  ghost function MaxSeats(seats: map<string, Seat>): nat {
    MaxRowSize(seats, Rows(seats))
  }

  /** maxSeats is the size of the largest row: no seat's row is longer, and some seat's row is that long. */
  lemma LargestRowIsARow(seats: map<string, Seat>)
    ensures forall k :: k in seats ==> RowSize(seats, seats[k].row) <= MaxSeats(seats)
    ensures seats != map[] ==> exists k :: k in seats && RowSize(seats, seats[k].row) == MaxSeats(seats)
  {
    var rows := Rows(seats);
    var m := MaxRowSize(seats, rows);
    if seats != map[] {
      var k0 :| k0 in seats;
      assert seats[k0].row in rows;
      var r :| r in rows && RowSize(seats, r) == m;
      var k :| k in seats && seats[k].row == r;
    }
  }

  /** What one position of a row shows: nothing, or a seat. */
  datatype Cell = Empty | SeatCell(seat: Seat)

  /** The cell for seat number `number` of `row`: the seat stored under `${row}${number}`, if any. */
  function CellAt(seats: map<string, Seat>, row: string, number: nat): Cell {
    if SeatId(row, number) in seats then SeatCell(seats[SeatId(row, number)]) else Empty
  }

  /** The grid as drawn: one line per row of `Rows`, `MaxSeats` cells per line, numbered from 1. */
  ghost function Grid(seats: map<string, Seat>): (g: seq<seq<Cell>>)
    ensures |g| == |Rows(seats)|
    ensures forall a :: 0 <= a < |g| ==> |g[a]| == MaxSeats(seats)
  {
    Lines(seats, Rows(seats), MaxSeats(seats))
  }

  /** One line of `n` cells per label of `rows`. */
  function Lines(seats: map<string, Seat>, rows: seq<string>, n: nat): (g: seq<seq<Cell>>)
    ensures |g| == |rows|
    ensures forall a :: 0 <= a < |g| ==> |g[a]| == n
  {
    seq(|rows|, a requires 0 <= a < |rows| => seq(n, i requires 0 <= i < n => CellAt(seats, rows[a], i + 1)))
  }

  /**
   * Each cell is looked up by key: it shows the seat stored under its row
   * label followed by its 1-based position, and is empty when there is none.
   */
  lemma GridLookup(seats: map<string, Seat>, a: nat, i: nat)
    requires a < |Grid(seats)| && i < |Grid(seats)[a]|
    ensures var key := SeatId(Rows(seats)[a], i + 1);
      Grid(seats)[a][i] == if key in seats then SeatCell(seats[key]) else Empty
  {
    var rows, n := Rows(seats), MaxSeats(seats);
    assert Grid(seats) == Lines(seats, rows, n);
    assert Lines(seats, rows, n)[a][i] == CellAt(seats, rows[a], i + 1);
  }

  /**
   * The seats the grid draws are exactly those stored under `${row}${number}`
   * for a row of the grid and a number in 1..maxSeats; a seat stored under
   * any other key appears in no cell.
   */
  lemma DrawnSeats(seats: map<string, Seat>, s: Seat)
    ensures (exists a, i :: 0 <= a < |Grid(seats)| && 0 <= i < |Grid(seats)[a]| && Grid(seats)[a][i] == SeatCell(s)) <==>
      (exists r, n :: r in Rows(seats) && 1 <= n <= MaxSeats(seats) && SeatId(r, n) in seats && seats[SeatId(r, n)] == s)
  {
    if a, i :| 0 <= a < |Grid(seats)| && 0 <= i < |Grid(seats)[a]| && Grid(seats)[a][i] == SeatCell(s) {
      DrawnCellIsStored(seats, a, i, s);
    }
    if r, n :| r in Rows(seats) && 1 <= n <= MaxSeats(seats) && SeatId(r, n) in seats && seats[SeatId(r, n)] == s {
      StoredSeatIsDrawn(seats, r, n, s);
    }
  }

  /** A cell that shows a seat shows the one stored under its row label and number. */
  lemma DrawnCellIsStored(seats: map<string, Seat>, a: nat, i: nat, s: Seat)
    requires a < |Grid(seats)| && i < |Grid(seats)[a]| && Grid(seats)[a][i] == SeatCell(s)
    ensures exists r, n :: r in Rows(seats) && 1 <= n <= MaxSeats(seats) && SeatId(r, n) in seats && seats[SeatId(r, n)] == s
  {
    var rows := Rows(seats);
    GridLookup(seats, a, i);
    assert rows[a] in rows && 1 <= i + 1 <= MaxSeats(seats);
  }

  /** A seat stored under `${row}${number}` of a grid row and a number in 1..maxSeats is shown by that cell. */
  lemma StoredSeatIsDrawn(seats: map<string, Seat>, r: string, n: nat, s: Seat)
    requires r in Rows(seats) && 1 <= n <= MaxSeats(seats) && SeatId(r, n) in seats && seats[SeatId(r, n)] == s
    ensures exists a, i :: 0 <= a < |Grid(seats)| && 0 <= i < |Grid(seats)[a]| && Grid(seats)[a][i] == SeatCell(s)
  {
    var rows := Rows(seats);
    var a :| 0 <= a < |rows| && rows[a] == r;
    GridLookup(seats, a, n - 1);
  }

  /** The click guard of a cell: a booked seat is ignored, any other seat is handed on. */
  function OnClick(seat: Seat): (r: Option<Seat>)
    ensures r.Some? <==> seat.status != Booked
    ensures r.Some? ==> r.value == seat
  {
    if seat.status != Booked then Some(seat) else None
  }

  /** Two strictly sorted sequences with the same elements are equal. */
  lemma {:induction false} SortedUnique(a: seq<string>, b: seq<string>)
    requires StrictlySorted(a) && StrictlySorted(b)
    requires forall x :: x in a <==> x in b
    ensures a == b
  {
    ghost var headIn := b == [] || b[0] in b;
    if a != [] {
      assert a[0] in b && b != [];
      assert b[0] in a;
      var i :| 0 <= i < |b| && b[i] == a[0];
      var j :| 0 <= j < |a| && a[j] == b[0];
      if i != 0 && j != 0 {
        BelowTransitive(a[0], b[0], a[0]);
        BelowIrreflexive(a[0]);
      }
      assert a[0] == b[0];
      SortedDistinct(a);
      SortedDistinct(b);
      forall x ensures x in a[1..] <==> x in b[1..] {
        if x in a[1..] {
          var p :| 1 <= p < |a| && a[p] == x;
          assert x != a[0] && x in b;
          var q :| 0 <= q < |b| && b[q] == x;
          assert q != 0;
        }
        if x in b[1..] {
          var q :| 1 <= q < |b| && b[q] == x;
          assert x != b[0] && x in a;
          var p :| 0 <= p < |a| && a[p] == x;
          assert p != 0;
        }
      }
      SortedUnique(a[1..], b[1..]);
    }
  }

  lemma RowNamesSorted()
    ensures StrictlySorted(RowNames)
  {
    forall i, j | 0 <= i < j < |RowNames| ensures Below(RowNames[i], RowNames[j]) {
      BelowSingle(RowNames[i], RowNames[j]);
    }
  }

  /** One-letter strings are ordered by their letters. */
  lemma BelowSingle(a: string, b: string)
    requires |a| == 1 && |b| == 1
    ensures Below(a, b) <==> a[0] < b[0]
  {
    assert a[1..] == [] && b[1..] == [];
  }

  /** The keys of seats 1..n of row `r`. */
  function RowKeySet(r: string, n: nat): set<string> {
    set i | 1 <= i <= n :: SeatId(r, i)
  }

  /** A one-letter row has n distinct keys for its seats 1..n. */
  lemma {:induction false} RowKeys(r: string, n: nat)
    requires |r| == 1
    ensures |RowKeySet(r, n)| == n
  {
    if n > 0 {
      var prev := RowKeySet(r, n - 1);
      RowKeys(r, n - 1);
      assert RowKeySet(r, n) == prev + {SeatId(r, n)};
      if SeatId(r, n) in prev {
        var i :| 1 <= i <= n - 1 && SeatId(r, i) == SeatId(r, n);
        SeatIdInjective(r, i, r, n);
        assert false;
      }
    }
  }

  lemma GeneratedRowSize(seats: map<string, Seat>, studioId: string, booked: string -> bool, r: string)
    requires IsGeneratedSeatMap(seats, studioId, booked) && r in RowNames
    ensures RowSize(seats, r) == SeatsPerRow(studioId)
  {
    var n := SeatsPerRow(studioId);
    RowNamesDistinct();
    var ri :| 0 <= ri < |RowNames| && RowNames[ri] == r;
    assert |r| == 1;
    var keys := RowKeySet(r, n);
    forall k | k in seats && seats[k].row == r ensures k in keys {
      var i := seats[k].number;
      assert 1 <= i <= n && k == SeatId(r, i);
    }
    forall k | k in keys ensures k in seats && seats[k].row == r {
      var i :| 1 <= i <= n && k == SeatId(r, i);
      assert HasNewSeat(seats, r, i, booked);
    }
    assert (set k | k in seats && seats[k].row == r) == keys;
    RowKeys(r, n);
  }

  lemma GeneratedRows(seats: map<string, Seat>, studioId: string, booked: string -> bool)
    requires IsGeneratedSeatMap(seats, studioId, booked)
    ensures Rows(seats) == RowNames
  {
    forall x ensures x in Rows(seats) <==> x in RowNames {
      if x in RowNames {
        assert HasNewSeat(seats, x, 1, booked);
        assert seats[SeatId(x, 1)].row == x;
      }
    }
    RowNamesSorted();
    SortedUnique(Rows(seats), RowNames);
  }

  /**
   * For a freshly generated seat map the grid has the rows A to H in order,
   * as many cells per row as the studio has seats per row, and every cell
   * shows the seat of that row and number: no gaps and no seat left out.
   */
  lemma GeneratedGrid(seats: map<string, Seat>, studioId: string, booked: string -> bool)
    requires IsGeneratedSeatMap(seats, studioId, booked)
    ensures Rows(seats) == RowNames
    ensures MaxSeats(seats) == SeatsPerRow(studioId)
    ensures forall a, i :: 0 <= a < |Grid(seats)| && 0 <= i < |Grid(seats)[a]| ==>
      Grid(seats)[a][i] == SeatCell(NewSeat(RowNames[a], i + 1, booked))
  {
    GeneratedRows(seats, studioId, booked);
    GeneratedMaxSeats(seats, studioId, booked);
    var g := Grid(seats);
    forall a, i | 0 <= a < |g| && 0 <= i < |g[a]|
      ensures g[a][i] == SeatCell(NewSeat(RowNames[a], i + 1, booked))
    {
      GridLookup(seats, a, i);
      assert HasNewSeat(seats, RowNames[a], i + 1, booked);
    }
  }

  lemma GeneratedMaxSeats(seats: map<string, Seat>, studioId: string, booked: string -> bool)
    requires IsGeneratedSeatMap(seats, studioId, booked)
    ensures MaxSeats(seats) == SeatsPerRow(studioId)
  {
    GeneratedRows(seats, studioId, booked);
    var r :| r in RowNames && RowSize(seats, r) == MaxRowSize(seats, RowNames);
    GeneratedRowSize(seats, studioId, booked, r);
  }
}
