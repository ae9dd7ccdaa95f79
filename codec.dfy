/**
 * Seat numbers and their labels: seat `n` in a hall of `seatsPerRow` columns is
 * row `floor(n / seatsPerRow)` (letter 'A' + row) and column `n % seatsPerRow + 1`.
 */
module SeatCodec {
  import opened JsText
  import opened Optional
  import opened ListOps

  /** Rows whose letter code stays below the surrogate range, so the letter is a plain character. */
  const MaxLetterRows: int := 0xD800 - 65

  /** The seat numbers whose text can be read back: a row letter that is a real character. */
  predicate Labelable(seatNumber: int, seatsPerRow: int) {
    0 <= seatNumber && 0 < seatsPerRow && seatNumber / seatsPerRow < MaxLetterRows
  }

  /**
   * `seatNumberToLabel`: the row letter followed by the column number. With zero
   * seats per row JavaScript computes a NUL row character and the text "NaN".
   */
  function SeatNumberToLabel(seatNumber: int, seatsPerRow: int): (text: string)
    ensures |text| >= 2
    ensures seatsPerRow == 0 ==> text == [0 as char] + "NaN"
  {
    if seatsPerRow == 0 then
      [FromCharCode(0)] + "NaN"
    else
      var row := FloorDiv(seatNumber, seatsPerRow);
      var col := TruncRem(seatNumber, seatsPerRow);
      [FromCharCode(65 + row)] + NumberToString(col + 1)
  }

  /**
   * For a seat of a hall with positive row width: the number part is the column
   * `n % seatsPerRow + 1`, which lies in 1..seatsPerRow; the letter is 'A' plus the
   * row; the first 26 rows get the letters 'A'..'Z'.
   */
  lemma LabelParts(seatNumber: int, seatsPerRow: int)
    requires 0 <= seatNumber && 0 < seatsPerRow
    ensures 1 <= seatNumber % seatsPerRow + 1 <= seatsPerRow
    ensures SeatNumberToLabel(seatNumber, seatsPerRow)[1..] == NatToString(seatNumber % seatsPerRow + 1)
    ensures seatNumber / seatsPerRow < MaxLetterRows ==>
              SeatNumberToLabel(seatNumber, seatsPerRow)[0] as int == 65 + seatNumber / seatsPerRow
    ensures seatNumber < 26 * seatsPerRow ==> 'A' <= SeatNumberToLabel(seatNumber, seatsPerRow)[0] <= 'Z'
  {
    NumberOfSeat(seatNumber, seatsPerRow);
    LetterOfSeat(seatNumber, seatsPerRow);
    var row := seatNumber / seatsPerRow;
    if row < MaxLetterRows {
      LetterCode(row);
    }
    if seatNumber < 26 * seatsPerRow {
      RowBelow(seatNumber, seatsPerRow, 26);
    }
  }

  lemma NumberOfSeat(seatNumber: int, seatsPerRow: int)
    requires 0 <= seatNumber && 0 < seatsPerRow
    ensures SeatNumberToLabel(seatNumber, seatsPerRow)[1..] == NatToString(seatNumber % seatsPerRow + 1)
  {
    assert TruncRem(seatNumber, seatsPerRow) == seatNumber % seatsPerRow;
  }

  lemma LetterOfSeat(seatNumber: int, seatsPerRow: int)
    requires 0 <= seatNumber && 0 < seatsPerRow
    ensures 0 <= seatNumber / seatsPerRow
    ensures SeatNumberToLabel(seatNumber, seatsPerRow)[0] == FromCharCode(65 + seatNumber / seatsPerRow)
  {
    assert FloorDiv(seatNumber, seatsPerRow) == seatNumber / seatsPerRow;
  }

  lemma LetterCode(row: int)
    requires 0 <= row < MaxLetterRows
    ensures FromCharCode(65 + row) as int == 65 + row
  {
  }

  /** A seat number below k full rows lies in one of the first k rows. */
  lemma RowBelow(seatNumber: int, seatsPerRow: int, k: int)
    requires 0 <= seatNumber < k * seatsPerRow && 0 < seatsPerRow
    ensures seatNumber / seatsPerRow < k
  {
    var row := seatNumber / seatsPerRow;
    if row >= k {
      MulMonotone(k, row, seatsPerRow);
    }
  }

  /** Row-major position: the seat in row r, column c lies in row r at column c. */
  lemma CellCoordinates(r: nat, c: nat, w: nat)
    requires c < w
    ensures (r * w + c) / w == r && (r * w + c) % w == c
  {
    var n := r * w + c;
    DivModRecombine(n, w);
    var q, m := n / w, n % w;
    assert (q - r) * w == c - m;
    SmallMultiple(q - r, w, c - m);
  }

  lemma SmallMultiple(k: int, w: int, d: int)
    requires 0 < w && k * w == d && -w < d < w
    ensures k == 0
  {
    if k > 0 {
      MulMonotone(1, k, w);
    } else if k < 0 {
      MulMonotone(k, -1, w);
    }
  }

  /**
   * The label of a seat in one of the first 26 rows and one of the first nine
   * columns: its row letter and a single digit.
   */
  lemma ShortLabel(seatNumber: int, seatsPerRow: nat, row: nat, col: nat)
    requires col < seatsPerRow && col < 9 && row < 26 && seatNumber == row * seatsPerRow + col
    ensures SeatNumberToLabel(seatNumber, seatsPerRow) == [(65 + row) as char, (49 + col) as char]
  {
    CellCoordinates(row, col, seatsPerRow);
    LetterOfSeat(seatNumber, seatsPerRow);
    LetterCode(row);
    NumberOfSeat(seatNumber, seatsPerRow);
    assert NatToString(col + 1) == [DigitChar(col + 1)];
  }

  lemma MulMonotone(a: int, b: int, c: int)
    requires a <= b && 0 < c
    ensures a * c <= b * c
  {
  }

  /** `formatSeats`: the text of every seat number, in the same order. */
  function FormatSeats(seatNumbers: seq<int>, seatsPerRow: int): (labels: seq<string>)
    ensures |labels| == |seatNumbers|
    ensures forall i :: 0 <= i < |labels| ==> labels[i] == SeatNumberToLabel(seatNumbers[i], seatsPerRow)
  {
    seq(|seatNumbers|, i requires 0 <= i < |seatNumbers| => SeatNumberToLabel(seatNumbers[i], seatsPerRow))
  }

  /**
   * Reading a text back: (letter code - 65) * seatsPerRow + (number - 1).
   * The inverse that the text format is designed to admit.
   */
  function LabelToSeatNumber(text: string, seatsPerRow: int): (n: Option<int>)
  {
    if |text| >= 2 && 'A' <= text[0] && AllDigits(text[1..]) && text[1] != '0' then
      Some((text[0] as int - 65) * seatsPerRow + DigitsValue(text[1..]) - 1)
    else
      None
  }

  lemma LabelRoundTrip(seatNumber: int, seatsPerRow: int)
    requires Labelable(seatNumber, seatsPerRow)
    ensures LabelToSeatNumber(SeatNumberToLabel(seatNumber, seatsPerRow), seatsPerRow) == Some(seatNumber)
  {
    var row, col := seatNumber / seatsPerRow, seatNumber % seatsPerRow + 1;
    LabelParts(seatNumber, seatsPerRow);
    ReadLabel(SeatNumberToLabel(seatNumber, seatsPerRow), seatsPerRow, row, col);
    DivModRecombine(seatNumber, seatsPerRow);
  }

  /** A label made of letter 'A' + row and the decimal column reads back as row * width + column - 1. */
  lemma ReadLabel(text: string, seatsPerRow: int, row: int, col: nat)
    requires |text| >= 2 && 0 <= row && 1 <= col
    requires text[0] as int == 65 + row && text[1..] == NatToString(col)
    ensures LabelToSeatNumber(text, seatsPerRow) == Some(row * seatsPerRow + col - 1)
  {
    DigitsValueOfNatToString(col);
    assert text[1] == NatToString(col)[0];
    assert text[1] != '0' by {
      if col < 10 { assert NatToString(col) == [DigitChar(col)]; }
    }
  }

  lemma DivModRecombine(n: int, d: int)
    requires 0 < d
    ensures (n / d) * d + n % d == n
  {
  }

  /** Two seats of the same hall never share a text. */
  lemma LabelInjective(m: int, n: int, seatsPerRow: int)
    requires Labelable(m, seatsPerRow) && Labelable(n, seatsPerRow)
    requires SeatNumberToLabel(m, seatsPerRow) == SeatNumberToLabel(n, seatsPerRow)
    ensures m == n
  {
    LabelRoundTrip(m, seatsPerRow);
    LabelRoundTrip(n, seatsPerRow);
  }

  /** Distinct seats get distinct labels. */
  lemma FormatSeatsDistinct(seatNumbers: seq<int>, seatsPerRow: int)
    requires NoDuplicates(seatNumbers)
    requires forall i :: 0 <= i < |seatNumbers| ==> Labelable(seatNumbers[i], seatsPerRow)
    ensures NoDuplicates(FormatSeats(seatNumbers, seatsPerRow))
  {
    var labels := FormatSeats(seatNumbers, seatsPerRow);
    forall i, j | 0 <= i < j < |labels| ensures labels[i] != labels[j] {
      if labels[i] == labels[j] {
        LabelInjective(seatNumbers[i], seatNumbers[j], seatsPerRow);
      }
    }
  }

  lemma FormatOfThree(a: int, b: int, c: int, seatsPerRow: int, la: string, lb: string, lc: string)
    requires la == SeatNumberToLabel(a, seatsPerRow) && lb == SeatNumberToLabel(b, seatsPerRow)
    requires lc == SeatNumberToLabel(c, seatsPerRow)
    ensures FormatSeats([a, b, c], seatsPerRow) == [la, lb, lc]
  {
  }
}
