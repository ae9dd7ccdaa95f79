/** One seat button: its click guard, disabled flag, status text, style and accessible name. */
module SeatButton {
  import opened JsText

  datatype SeatProps = SeatProps(seatNumber: int, isSelected: bool, isBooked: bool, rowLabel: string, colNumber: int)

  /** The `onToggle` calls one click makes. */
  function HandleClick(props: SeatProps): (calls: seq<int>)
    ensures |calls| <= 1
    ensures calls == [] <==> props.isBooked
    ensures forall x :: x in calls ==> x == props.seatNumber
  {
    if !props.isBooked then [props.seatNumber] else []
  }

  /** The button is disabled exactly for the seats whose click would be ignored anyway. */
  function Disabled(props: SeatProps): (disabled: bool)
    ensures disabled <==> HandleClick(props) == []
  {
    props.isBooked
  }

  // The three mutually exclusive class groups of the button.
  predicate BookedStyle(props: SeatProps) { props.isBooked }
  predicate SelectedStyle(props: SeatProps) { props.isSelected && !props.isBooked }
  predicate AvailableStyle(props: SeatProps) { !props.isBooked && !props.isSelected }

  /** The status word of the title. */
  function Status(props: SeatProps): (status: string)
    ensures status == "Booked" <==> BookedStyle(props)
    ensures status == "Selected" <==> SelectedStyle(props)
    ensures status == "Available" <==> AvailableStyle(props)
  {
    if props.isBooked then "Booked" else if props.isSelected then "Selected" else "Available"
  }

  /** Exactly one style group applies to every seat. */
  lemma ExactlyOneStyle(props: SeatProps)
    ensures BookedStyle(props) || SelectedStyle(props) || AvailableStyle(props)
    ensures !(BookedStyle(props) && SelectedStyle(props))
    ensures !(BookedStyle(props) && AvailableStyle(props))
    ensures !(SelectedStyle(props) && AvailableStyle(props))
  {
  }

  /** The accessible name, "Seat " then the row letter and the column number. */
  function AriaLabel(props: SeatProps): (name: string)
    ensures |name| > 5 + |props.rowLabel|
    ensures name[..5] == "Seat " && name[5..5 + |props.rowLabel|] == props.rowLabel
    ensures var number := name[5 + |props.rowLabel|..];
            props.colNumber >= 0 <==> AllDigits(number)
    ensures var number := name[5 + |props.rowLabel|..];
            props.colNumber >= 0 ==> DigitsValue(number) == props.colNumber
  {
    var number := NumberToString(props.colNumber);
    var name := "Seat " + props.rowLabel + number;
    assert name[5 + |props.rowLabel|..] == number;
    name
  }

  /** The tooltip: the accessible name followed by the status. */
  function Title(props: SeatProps): (title: string)
    ensures title == AriaLabel(props) + " - " + Status(props)
  {
    "Seat " + props.rowLabel + NumberToString(props.colNumber) + " - " + Status(props)
  }
}
