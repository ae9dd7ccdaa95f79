/**
 * The booking page: it routes seat clicks, looks up the ticket to show, books
 * through the form action, cancels through the booking service, and shows the
 * selection summary and price. Its state is the seat-booking hook plus the two
 * dialog flags.
 */
module MainPage {
  import opened Optional
  import opened ListOps
  import opened JsText
  import opened SeatCodec
  import opened SeatBooking
  import opened BookingActions
  import opened SeatGrid
  import opened SeatButton

  const SeatPrice: int := 12

  /** The seat numbers of the patron's tickets (`myBookedSeatNumbers`). */
  function OwnedSeatNumbers(userData: Option<UserData>): (numbers: seq<int>)
    ensures forall n :: n in numbers <==> Owns(userData, n)
    ensures userData.Some? ==> |numbers| == |userData.value.seats|
    ensures userData.None? ==> numbers == []
  {
    if userData.None? then [] else SeatNumbers(userData.value.seats)
  }

  predicate Owns(userData: Option<UserData>, seatNumber: int) {
    userData.Some? && exists i :: 0 <= i < |userData.value.seats| && userData.value.seats[i].seatNumber == seatNumber
  }

  /** Which toggle a seat click reaches. */
  datatype Route = CancelToggle | BookToggle

  /** A click on a seat the patron holds a ticket for goes to the cancellation toggle, any other to the booking toggle. */
  function RouteOf(userData: Option<UserData>, seatNumber: int): (route: Route)
    ensures route == CancelToggle <==> Owns(userData, seatNumber)
  {
    if seatNumber in OwnedSeatNumbers(userData) then CancelToggle else BookToggle
  }

  /** Entry i is the first ticket for the given seat. */
  predicate FirstTicketFor(tickets: seq<OwnedSeat>, seatNumber: int, i: int) {
    0 <= i < |tickets| && tickets[i].seatNumber == seatNumber
    && forall j :: 0 <= j < i ==> tickets[j].seatNumber != seatNumber
  }

  /** `find`: the first ticket covering the seat, if any. */
  function FindTicket(tickets: seq<OwnedSeat>, seatNumber: int): (found: Option<nat>)
    ensures found.Some? ==> FirstTicketFor(tickets, seatNumber, found.value)
    ensures found.None? ==> forall j :: 0 <= j < |tickets| ==> tickets[j].seatNumber != seatNumber
  {
    if tickets == [] then None
    else if tickets[0].seatNumber == seatNumber then Some(0)
    else match FindTicket(tickets[1..], seatNumber)
         case None => None
         case Some(i) => Some(i + 1)
  }

  /**
   * `getTicketId`: the ticket id of the first owned ticket for the first
   * selected seat, or "" when there is no record, no selection or no match.
   */
  function TicketIdFor(userData: Option<UserData>, selectedSeats: seq<int>): (id: string)
    ensures userData.None? || selectedSeats == [] ==> id == ""
    ensures userData.Some? && selectedSeats != [] ==>
              (forall i :: FirstTicketFor(userData.value.seats, selectedSeats[0], i) ==> id == userData.value.seats[i].ticketId)
              && ((forall j :: 0 <= j < |userData.value.seats| ==> userData.value.seats[j].seatNumber != selectedSeats[0]) ==> id == "")
  {
    if userData.None? || |userData.value.seats| == 0 || |selectedSeats| == 0 then ""
    else match FindTicket(userData.value.seats, selectedSeats[0])
         case None => ""
         case Some(i) => userData.value.seats[i].ticketId
  }

  /** The ticket `handleCancelBooking` submits: that of the first owned ticket selected for cancellation. */
  function TicketToCancel(tickets: seq<OwnedSeat>, selectedDelSeats: seq<int>): (ticket: Option<string>)
    ensures ticket.None? <==> forall i :: 0 <= i < |tickets| ==> tickets[i].seatNumber !in selectedDelSeats
    ensures ticket.Some? ==>
              exists i :: 0 <= i < |tickets| && tickets[i].seatNumber in selectedDelSeats
                && ticket.value == tickets[i].ticketId
                && forall j :: 0 <= j < i ==> tickets[j].seatNumber !in selectedDelSeats
  {
    var p := (e: OwnedSeat) => e.seatNumber in selectedDelSeats;
    var toCancel := Filter(tickets, p);
    if |toCancel| == 0 then
      None
    else
      FilterNonEmpty(tickets, p);
      var i :| 0 <= i < |tickets| && p(tickets[i]) && forall j :: 0 <= j < i ==> !p(tickets[j]);
      FilterHead(tickets, p, i);
      Some(toCancel[0].ticketId)
  }

  /** The total shown in the summary: $12 per seat to book, less $12 per seat to cancel. */
  function TotalPrice(selectedSeats: seq<int>, selectedDelSeats: seq<int>): (price: int)
    ensures price % SeatPrice == 0
    ensures price < 0 <==> |selectedDelSeats| > |selectedSeats|
    ensures price == 0 <==> |selectedDelSeats| == |selectedSeats|
  {
    (|selectedSeats| - |selectedDelSeats|) * SeatPrice
  }

  /** The total the confirmation dialog shows: $12 per seat to book. */
  function DialogTotalPrice(selectedSeats: seq<int>): (price: int)
    ensures price >= 0 && price % SeatPrice == 0
    ensures price == 0 <==> selectedSeats == []
  {
    |selectedSeats| * SeatPrice
  }

  /**
   * The summary total is the confirmation dialog's total less $12 per seat
   * selected for cancellation.
   */
  lemma TotalPriceMeaning(selectedSeats: seq<int>, selectedDelSeats: seq<int>)
    ensures TotalPrice(selectedSeats, selectedDelSeats) == DialogTotalPrice(selectedSeats) - |selectedDelSeats| * SeatPrice
    ensures selectedDelSeats == [] ==> TotalPrice(selectedSeats, selectedDelSeats) == DialogTotalPrice(selectedSeats)
  {
  }

  /**
   * The `selectedSeats` prop the page hands the ticket dialog: the record's
   * tickets whose seat is selected, in record order. The prop is declared as a
   * list of seat numbers but holds these ticket objects.
   */
  function TicketDialogSeats(record: UserData, selectedSeats: seq<int>): (shown: seq<OwnedSeat>)
    ensures forall e :: e in shown <==> e in record.seats && e.seatNumber in selectedSeats
    ensures IsSubsequence(shown, record.seats)
  {
    Filter(record.seats, (e: OwnedSeat) => e.seatNumber in selectedSeats)
  }

  /** The prop holds each ticket on a selected seat as often as the record does, and no other. */
  lemma TicketDialogSeatsMultiplicity(record: UserData, selectedSeats: seq<int>)
    ensures forall e :: multiset(TicketDialogSeats(record, selectedSeats))[e]
                     == if e.seatNumber in selectedSeats then multiset(record.seats)[e] else 0
  {
    FilterMultiplicity(record.seats, (e: OwnedSeat) => e.seatNumber in selectedSeats);
  }

  /**
   * Right after a confirmed booking of a non-empty selection, the seats prop
   * of the ticket dialog holds the new ticket; on a first booking the ticket id
   * handed to the dialog is the new ticket's.
   */
  lemma NewTicketIsShown(existing: Option<UserData>, selectedSeats: seq<int>, incoming: UserData)
    requires selectedSeats != [] && incoming.seats != []
    ensures var record := Merged(existing, selectedSeats, incoming);
            var before := if existing.Some? then |existing.value.seats| else 0;
            before < |record.seats|
            && record.seats[before] in TicketDialogSeats(record, selectedSeats)
            && (existing.None? ==> TicketIdFor(Some(record), selectedSeats) == incoming.seats[0].ticketId)
  {
    var record := Merged(existing, selectedSeats, incoming);
    var before := if existing.Some? then |existing.value.seats| else 0;
    if existing.Some? {
      assert record.seats[before] == record.seats[before..][0];
    }
    assert record.seats[before].seatNumber == selectedSeats[0];
    assert record.seats[before] in record.seats;
  }

  /**
   * The label of a summary chip. The page computes it inline as `rowLabel` and
   * `col` instead of calling `seatNumberToLabel`, so the steps are repeated here
   * and the ensures shows the two agree.
   */
  function SummaryChipLabel(seatNumber: int, cols: int): (chip: string)
    ensures chip == SeatNumberToLabel(seatNumber, cols)
  {
    if cols == 0 then [FromCharCode(0)] + "NaN"
    else [FromCharCode(65 + FloorDiv(seatNumber, cols))] + NumberToString(TruncRem(seatNumber, cols) + 1)
  }

  /** The form's hidden `seats` field: the label of the first selected seat, or "". */
  function FormSeatsField(selectedSeats: seq<int>, cols: int): (field: string)
    ensures selectedSeats != [] ==> field == SeatNumberToLabel(selectedSeats[0], cols)
    ensures selectedSeats == [] ==> field == ""
  {
    var labels := FormatSeats(selectedSeats, cols);
    if |labels| > 0 then labels[0] else ""
  }

  /**
   * A successful booking of the selection records exactly one new ticket, last
   * in the record, for the first selected seat, under that seat's label.
   */
  lemma BookingRecordsFirstSelectedSeat(existing: Option<UserData>, selectedSeats: seq<int>, cols: int,
                                        name: string, email: string, service: BookRequest -> BookReply)
    requires selectedSeats != []
    requires service(BookRequest(SeatNumberToLabel(selectedSeats[0], cols), name, email)).BookAccepted?
    ensures var form := BookingForm(name, email, FormSeatsField(selectedSeats, cols));
            var state := HandleFormAction(form, service);
            var record := Merged(existing, selectedSeats, state.data.value);
            var before := if existing.Some? then |existing.value.seats| else 0;
            |record.seats| == before + 1
            && record.seats[before] == OwnedSeat(selectedSeats[0],
                                                 service(BookRequestOf(form)).ticket,
                                                 SeatNumberToLabel(selectedSeats[0], cols))
  {
    var form := BookingForm(name, email, FormSeatsField(selectedSeats, cols));
    var state := HandleFormAction(form, service);
    var tickets := Normalized(state.data.value.seats, selectedSeats);
    assert tickets[0].seatNumber == selectedSeats[0];
    var record := Merged(existing, selectedSeats, state.data.value);
    if existing.Some? {
      assert record.seats[|existing.value.seats|] == record.seats[|existing.value.seats|..][0];
    }
  }

  /** After a cancellation, none of the cancelled seats is in the record, even after the refresh. */
  lemma CancelledSeatsStayGone(record: UserData, selectedDelSeats: seq<int>, refresh: LayoutReply, seatNumber: int)
    requires seatNumber in selectedDelSeats
    ensures var rest := WithoutOwned(record, selectedDelSeats);
            !Owns(OwnedAfterLoad(Some(rest), Stored(rest), refresh), seatNumber)
  {
    var rest := WithoutOwned(record, selectedDelSeats);
    var after := OwnedAfterLoad(Some(rest), Stored(rest), refresh);
    if Derivable(refresh) {
      LoadReplacesRecord(Some(rest), Stored(rest), refresh);
    }
    forall i | 0 <= i < |after.value.seats| ensures after.value.seats[i].seatNumber != seatNumber {
      assert after.value.seats[i] in rest.seats;
    }
  }

  /**
   * After a load that derived booked seats, every seat the patron holds a
   * ticket for is drawn booked, so its button ignores clicks: the route to the
   * cancellation toggle is never reached from the grid.
   */
  lemma OwnedSeatsNotClickable(owned: Option<UserData>, stored: StoredRecord, reply: LayoutReply, booked: seq<int>,
                               selectedSeats: seq<int>, rowIndex: int, colIndex: int)
    requires Derivable(reply)
    requires owned.Some? ==> stored == Stored(owned.value)
    requires 0 <= rowIndex < ArrayLength(reply.layout.rows) && 0 <= colIndex < ArrayLength(reply.layout.cols)
    ensures var props := CellProps(reply.layout.rows, reply.layout.cols, selectedSeats,
                                   BookedAfterLoad(booked, reply), rowIndex, colIndex);
            Owns(OwnedAfterLoad(owned, stored, reply), props.seatNumber) ==> HandleClick(props) == []
  {
    var props := CellProps(reply.layout.rows, reply.layout.cols, selectedSeats,
                           BookedAfterLoad(booked, reply), rowIndex, colIndex);
    var after := OwnedAfterLoad(owned, stored, reply);
    if Owns(after, props.seatNumber) {
      ReconciliationSound(owned, stored, reply);
      var i :| 0 <= i < |after.value.seats| && after.value.seats[i].seatNumber == props.seatNumber;
      assert after.value.seats[i] in after.value.seats;
    }
  }

  /** The page: the hook's state and whether the confirmation and ticket dialogs are open. */
  class Page {
    const hook: SeatBookingHook
    var showTicketDialog: bool
    var showConfirmDialog: bool

    ghost predicate Valid()
      reads this, hook
    {
      hook.Valid()
    }

    /** The first render, followed by the mount effect's layout load. */
    constructor (storedUserData: StoredRecord, storedLegacy: Option<string>, firstLayout: LayoutReply)
      ensures Valid() && fresh(hook)
      ensures !showTicketDialog && !showConfirmDialog
      ensures hook.selectedSeats == [] && hook.selectedDelSeats == [] && !hook.layoutLoading
      ensures hook.bookedSeats == BookedAfterLoad([], firstLayout)
      ensures hook.userData == OwnedAfterLoad(None, storedUserData, firstLayout)
      ensures hook.storedUserData == StoredAfterLoad(storedUserData, firstLayout)
      ensures hook.layoutError <==> !Derivable(firstLayout)
      ensures hook.data == if firstLayout.LayoutJson? then Some(firstLayout.layout) else None
    {
      hook := new SeatBookingHook(storedUserData, storedLegacy);
      showTicketDialog, showConfirmDialog := false, false;
      new;
      hook.LoadLayout(firstLayout);
    }

    /** `handleSeatToggle`: owned seats go to the cancellation toggle, the rest to the booking toggle. */
    method HandleSeatToggle(seatNumber: int)
      requires Valid()
      modifies hook`selectedSeats, hook`selectedDelSeats
      ensures Valid()
      ensures RouteOf(hook.userData, seatNumber) == CancelToggle ==>
                hook.selectedDelSeats == Toggled(old(hook.selectedDelSeats), seatNumber)
                && hook.selectedSeats == old(hook.selectedSeats)
      ensures RouteOf(hook.userData, seatNumber) == BookToggle ==>
                hook.selectedDelSeats == old(hook.selectedDelSeats)
                && hook.selectedSeats == if seatNumber in hook.bookedSeats then old(hook.selectedSeats)
                                         else Toggled(old(hook.selectedSeats), seatNumber)
    {
      if seatNumber in OwnedSeatNumbers(hook.userData) {
        hook.ToggleDelSeat(seatNumber);
      } else {
        hook.ToggleSeat(seatNumber);
      }
    }

    /** `handleConfirmBooking`: fold the reply into the record and switch to the ticket dialog. */
    method HandleConfirmBooking(record: UserData)
      requires Valid()
      modifies this, hook`userData, hook`storedUserData
      ensures Valid()
      ensures hook.userData == Some(Merged(old(hook.userData), hook.selectedSeats, record))
      ensures !showConfirmDialog && showTicketDialog
    {
      hook.SetUserData(record);
      showConfirmDialog := false;
      showTicketDialog := true;
    }

    /**
     * The confirmation dialog's form: book the first selected seat's label and,
     * on success, confirm the booking and close the dialog. Any other outcome
     * changes nothing on the page.
     */
    method SubmitBooking(name: string, email: string, service: BookRequest -> BookReply)
      returns (state: BookingActionState)
      requires Valid() && hook.data.Some?
      modifies this, hook`userData, hook`storedUserData
      ensures Valid()
      ensures state == HandleFormAction(
                BookingForm(name, email, FormSeatsField(hook.selectedSeats, hook.data.value.cols)), service)
      ensures state.success ==>
                hook.userData == Some(Merged(old(hook.userData), hook.selectedSeats, state.data.value))
                && !showConfirmDialog && showTicketDialog
      ensures !state.success ==>
                hook.userData == old(hook.userData) && hook.storedUserData == old(hook.storedUserData)
                && showConfirmDialog == old(showConfirmDialog) && showTicketDialog == old(showTicketDialog)
    {
      var form := BookingForm(name, email, FormSeatsField(hook.selectedSeats, hook.data.value.cols));
      state := HandleFormAction(form, service);
      if state.success {
        HandleConfirmBooking(state.data.value);
        // the dialog's onClose
        showConfirmDialog := false;
      }
    }

    /** `handleCloseTicketDialog`: confirm the booking, then reload the layout. */
    method HandleCloseTicketDialog(refresh: LayoutReply)
      requires Valid()
      modifies this, hook`bookedSeats, hook`selectedSeats, hook`layoutLoading, hook`data, hook`layoutError,
               hook`userData, hook`storedUserData
      ensures Valid()
      ensures !showTicketDialog && showConfirmDialog == old(showConfirmDialog)
      ensures hook.selectedSeats == []
      ensures hook.bookedSeats == BookedAfterLoad(Dedup(old(hook.bookedSeats) + old(hook.selectedSeats)), refresh)
      ensures hook.userData == OwnedAfterLoad(old(hook.userData), old(hook.storedUserData), refresh)
      ensures hook.storedUserData == StoredAfterLoad(old(hook.storedUserData), refresh)
      ensures !hook.layoutLoading && hook.layoutError == (old(hook.layoutError) || !Derivable(refresh))
      ensures hook.data == if refresh.LayoutJson? then Some(refresh.layout) else old(hook.data)
    {
      showTicketDialog := false;
      hook.ConfirmBooking();
      hook.LoadLayout(refresh);
    }

    /**
     * `handleCancelBooking`: with a record and a cancellation selection, submit
     * the ticket of the first owned seat selected for cancellation. When the call
     * returns, drop every cancellation-selected seat from the record and from the
     * booked seats, clear both selections and reload the layout. When there is
     * nothing to submit or the call throws, nothing changes.
     */
    method HandleCancelBooking(reply: CancelReply, refresh: LayoutReply) returns (submitted: Option<string>)
      requires Valid()
      modifies hook`userData, hook`storedUserData, hook`bookedSeats, hook`selectedSeats, hook`selectedDelSeats,
               hook`layoutLoading, hook`data, hook`layoutError
      ensures Valid()
      ensures submitted == if old(hook.userData).None? || old(hook.selectedDelSeats) == [] then None
                           else TicketToCancel(old(hook.userData).value.seats, old(hook.selectedDelSeats))
      ensures submitted.None? || reply.CancelThrew? ==> unchanged(hook)
      ensures submitted.Some? && reply.CancelAnswered? ==>
                var rest := WithoutOwned(old(hook.userData).value, old(hook.selectedDelSeats));
                && hook.selectedSeats == [] && hook.selectedDelSeats == []
                && hook.bookedSeats == BookedAfterLoad(WithoutSeats(old(hook.bookedSeats), old(hook.selectedDelSeats)), refresh)
                && hook.userData == OwnedAfterLoad(Some(rest), Stored(rest), refresh)
                && hook.storedUserData == StoredAfterLoad(Stored(rest), refresh)
                && !hook.layoutLoading && hook.layoutError == (old(hook.layoutError) || !Derivable(refresh))
                && hook.data == (if refresh.LayoutJson? then Some(refresh.layout) else old(hook.data))
    {
      if hook.userData.None? || |hook.selectedDelSeats| == 0 {
        return None;
      }
      var selectedDel := hook.selectedDelSeats;
      submitted := TicketToCancel(hook.userData.value.seats, selectedDel);
      if submitted.None? {
        // `seatsToCancel[0].ticketId` throws, and the handler swallows the error
        return;
      }
      if reply.CancelThrew? {
        return;
      }
      CancellationDone(selectedDel, refresh);
    }

    /**
     * What `handleCancelBooking` does once `deleteSeat` has answered: drop the
     * seats from the record and from the booked seats, clear both selections
     * and reload the layout.
     */
    method CancellationDone(seatNumbers: seq<int>, refresh: LayoutReply)
      requires Valid() && hook.userData.Some? && seatNumbers != []
      modifies hook`userData, hook`storedUserData, hook`bookedSeats, hook`selectedSeats, hook`selectedDelSeats,
               hook`layoutLoading, hook`data, hook`layoutError
      ensures Valid()
      ensures var rest := WithoutOwned(old(hook.userData).value, seatNumbers);
              && hook.selectedSeats == [] && hook.selectedDelSeats == []
              && hook.bookedSeats == BookedAfterLoad(WithoutSeats(old(hook.bookedSeats), seatNumbers), refresh)
              && hook.userData == OwnedAfterLoad(Some(rest), Stored(rest), refresh)
              && hook.storedUserData == StoredAfterLoad(Stored(rest), refresh)
      ensures !hook.layoutLoading && hook.layoutError == (old(hook.layoutError) || !Derivable(refresh))
      ensures hook.data == if refresh.LayoutJson? then Some(refresh.layout) else old(hook.data)
    {
      hook.RemoveUserSeats(seatNumbers);
      hook.RemoveBookedSeats(seatNumbers);
      hook.ClearSelection();
      hook.ClearDelSelection();
      hook.LoadLayout(refresh);
    }
  }

  /** What `deleteSeat` gives: the call throws, or any JSON reply, which counts as done whatever its status. */
  datatype CancelReply = CancelThrew | CancelAnswered
}
