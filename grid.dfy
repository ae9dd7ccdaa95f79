/** The seat map: rows of seat numbers in row-major order and the props of each cell. */
module SeatGrid {
  import opened JsText
  import opened SeatCodec
  import opened SeatButton

  /** `Array.from({ length })` for an integer length: a negative length gives an empty array. */
  function ArrayLength(length: int): nat {
    if length < 0 then 0 else length
  }

  /** `seatRows`: row `r`, column `c` holds seat `r * seatsPerRow + c`. */
  function SeatRows(rows: int, seatsPerRow: int): (grid: seq<seq<int>>)
    ensures |grid| == ArrayLength(rows)
    ensures forall r :: 0 <= r < |grid| ==> |grid[r]| == ArrayLength(seatsPerRow)
  {
    seq(ArrayLength(rows), r => seq(ArrayLength(seatsPerRow), c => r * seatsPerRow + c))
  }

  function Flatten(grid: seq<seq<int>>): seq<int> {
    if grid == [] then [] else grid[0] + Flatten(grid[1..])
  }

  /** The seats 0 .. n-1 in increasing order. */
  function Range(n: nat): (r: seq<int>)
    ensures |r| == n && forall i :: 0 <= i < n ==> r[i] == i
  {
    seq(n, i => i)
  }

  /** Read row by row, the grid lists every seat 0 .. rows*seatsPerRow-1 once, in increasing order. */
  lemma SeatRowsEnumerateSeats(rows: nat, seatsPerRow: nat)
    ensures Flatten(SeatRows(rows, seatsPerRow)) == Range(rows * seatsPerRow)
  {
    var grid := SeatRows(rows, seatsPerRow);
    RowsFrom(grid, rows, seatsPerRow, 0);
    assert grid[0..] == grid;
  }

  lemma {:induction false} RowsFrom(grid: seq<seq<int>>, rows: nat, seatsPerRow: nat, k: nat)
    requires grid == SeatRows(rows, seatsPerRow) && k <= rows
    ensures Flatten(grid[k..]) == seq((rows - k) * seatsPerRow, i => k * seatsPerRow + i)
    decreases rows - k
  {
    if k == rows {
      assert grid[k..] == [];
    } else {
      RowsFrom(grid, rows, seatsPerRow, k + 1);
      assert grid[k..][0] == grid[k] && grid[k..][1..] == grid[k + 1..];
      var head := grid[k];
      var tail := Flatten(grid[k + 1..]);
      var w := seatsPerRow;
      StepProducts(k, rows - k - 1, w);
      var whole := seq((rows - k) * w, i => k * w + i);
      assert |head + tail| == |whole|;
      forall i | 0 <= i < |whole| ensures (head + tail)[i] == whole[i] {
        if i >= w {
          assert (head + tail)[i] == tail[i - w] == (k + 1) * w + (i - w);
        }
      }
    }
  }

  lemma StepProducts(k: nat, m: nat, w: nat)
    ensures (k + 1) * w == k * w + w && (m + 1) * w == w + m * w
  {
  }

  /** The row letter: the character with code 65 + rowIndex. */
  function RowLabel(rowIndex: int): (letter: string)
    ensures |letter| == 1
    ensures 0 <= rowIndex < 26 ==> 'A' <= letter[0] <= 'Z' && letter[0] as int - 'A' as int == rowIndex
  {
    [FromCharCode(65 + rowIndex)]
  }

  /** `colNumber`: the seat's column, counted from 1. */
  function ColNumber(seatNumber: int, seatsPerRow: int): (col: int)
    requires seatsPerRow != 0
    ensures col - 1 == TruncRem(seatNumber, Abs(seatsPerRow))
    ensures seatNumber >= 0 ==> 1 <= col <= Abs(seatsPerRow) && col - 1 == seatNumber % Abs(seatsPerRow)
    ensures seatNumber < 0 ==> 1 - Abs(seatsPerRow) < col <= 1
  {
    TruncRem(seatNumber, seatsPerRow) + 1
  }

  /** The props the grid gives the seat in row `rowIndex`, column `colIndex`. */
  function CellProps(rows: int, seatsPerRow: int, selectedSeats: seq<int>, bookedSeats: seq<int>,
                     rowIndex: int, colIndex: int): (props: SeatProps)
    requires 0 <= rowIndex < ArrayLength(rows) && 0 <= colIndex < ArrayLength(seatsPerRow)
    ensures props.seatNumber == rowIndex * seatsPerRow + colIndex
    ensures props.isSelected <==> props.seatNumber in selectedSeats
    ensures props.isBooked <==> props.seatNumber in bookedSeats
  {
    var seatNumber := SeatRows(rows, seatsPerRow)[rowIndex][colIndex];
    SeatProps(seatNumber, seatNumber in selectedSeats, seatNumber in bookedSeats,
              RowLabel(rowIndex), ColNumber(seatNumber, seatsPerRow))
  }

  /**
   * A cell's column number is its column index plus one, within 1..seatsPerRow,
   * and its row letter followed by that number is the seat's label.
   */
  lemma CellLabel(rows: int, seatsPerRow: int, selectedSeats: seq<int>, bookedSeats: seq<int>,
                  rowIndex: int, colIndex: int)
    requires 0 <= rowIndex < ArrayLength(rows) && 0 <= colIndex < ArrayLength(seatsPerRow)
    ensures var props := CellProps(rows, seatsPerRow, selectedSeats, bookedSeats, rowIndex, colIndex);
            props.colNumber == colIndex + 1 && 1 <= props.colNumber <= seatsPerRow
            && props.rowLabel + NumberToString(props.colNumber) == SeatNumberToLabel(props.seatNumber, seatsPerRow)
  {
    var seat := rowIndex * seatsPerRow + colIndex;
    CellCoordinates(rowIndex, colIndex, seatsPerRow);
    NumberOfSeat(seat, seatsPerRow);
    LetterOfSeat(seat, seatsPerRow);
  }

  /** The accessible name of a cell is "Seat " followed by the seat's label. */
  lemma CellAriaLabel(rows: int, seatsPerRow: int, selectedSeats: seq<int>, bookedSeats: seq<int>,
                      rowIndex: int, colIndex: int)
    requires 0 <= rowIndex < ArrayLength(rows) && 0 <= colIndex < ArrayLength(seatsPerRow)
    ensures AriaLabel(CellProps(rows, seatsPerRow, selectedSeats, bookedSeats, rowIndex, colIndex))
         == "Seat " + SeatNumberToLabel(rowIndex * seatsPerRow + colIndex, seatsPerRow)
  {
    CellLabel(rows, seatsPerRow, selectedSeats, bookedSeats, rowIndex, colIndex);
  }
}
