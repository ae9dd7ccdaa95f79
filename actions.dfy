/**
 * The booking form's server action: post the form to the booking service and
 * shape the reply into the dialog's state, with a placeholder owned-ticket
 * record for a successful booking.
 */
module BookingActions {
  import opened Optional
  import opened SeatBooking

  /** The submitted form: the patron's name and email, and the label of the seat. */
  datatype BookingForm = BookingForm(name: string, email: string, seats: string)

  /** The JSON body posted to the booking service. */
  datatype BookRequest = BookRequest(seatCode: string, username: string, email: string)

  /**
   * How the booking service answers one request: the call throws (network error or
   * a body that is not JSON), a non-2xx status, or a 2xx body carrying a ticket id.
   */
  datatype BookReply = BookThrew | BookRejected | BookAccepted(ticket: string)

  datatype BookingActionState = BookingActionState(success: bool, message: string, data: Option<UserData>)

  const FailedMessage: string := "Booking failed. Please try again."
  const ErrorMessage: string := "Something went wrong. Please try again."
  const SuccessMessage: string := "Booking successful!"

  /** The seat number the action records before the client ties the ticket to a seat. */
  const PlaceholderSeatNumber: int := -1

  /** The request body: the seat label as `seatCode`, the name as `username`, and the email. */
  function BookRequestOf(form: BookingForm): (request: BookRequest)
    ensures request.seatCode == form.seats && request.username == form.name && request.email == form.email
  {
    BookRequest(form.seats, form.name, form.email)
  }

  /**
   * `handleFormAction`, with the service given as the function from request to
   * reply. Only an accepted booking succeeds, and only it carries data: one
   * ticket with the placeholder seat number and the submitted label as title.
   */
  function HandleFormAction(form: BookingForm, service: BookRequest -> BookReply): (state: BookingActionState)
    ensures var reply := service(BookRequestOf(form));
            && (state.success <==> reply.BookAccepted?)
            && (state.data.Some? <==> state.success)
            && (reply.BookRejected? ==> state.message == FailedMessage)
            && (reply.BookThrew? ==> state.message == ErrorMessage)
            && (reply.BookAccepted? ==>
                  state.message == SuccessMessage
                  && state.data.value.name == form.name && state.data.value.email == form.email
                  && state.data.value.seats == [OwnedSeat(PlaceholderSeatNumber, reply.ticket, form.seats)])
  {
    match service(BookRequestOf(form))
    case BookThrew => BookingActionState(false, ErrorMessage, None)
    case BookRejected => BookingActionState(false, FailedMessage, None)
    case BookAccepted(ticket) =>
      BookingActionState(true, SuccessMessage,
        Some(UserData(form.name, form.email, [OwnedSeat(PlaceholderSeatNumber, ticket, form.seats)])))
  }
}
