/** The worked example in the documentation of `formatSeats`, checked against the model. */
module SeatCodecExamples {
  import opened SeatCodec

  /** The documented example: in a hall of twelve seats per row, seats 0, 5 and 12 are A1, A6 and B1. */
  lemma FormatSeatsDocExample()
    ensures FormatSeats([0, 5, 12], 12) == ["A1", "A6", "B1"]
  {
    ShortLabel(0, 12, 0, 0);
    ShortLabel(5, 12, 0, 5);
    ShortLabel(12, 12, 1, 0);
    FormatOfThree(0, 5, 12, 12, "A1", "A6", "B1");
  }

  /** The documented example depends on the width: with ten seats per row, seat 12 is B3. */
  lemma FormatSeatsTenPerRow()
    ensures FormatSeats([0, 5, 12], 10) == ["A1", "A6", "B3"]
  {
    ShortLabel(0, 10, 0, 0);
    ShortLabel(5, 10, 0, 5);
    ShortLabel(12, 10, 1, 2);
    FormatOfThree(0, 5, 12, 10, "A1", "A6", "B3");
  }
}
