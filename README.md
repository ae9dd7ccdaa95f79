# Cinema seat booking: a verified model of the front end

This project models the front end of a cinema seat-reservation web app in Dafny. The hall is a grid of `rows × cols` seats, numbered row by row from 0. A patron selects free seats and books them through a form. The booking service returns a ticket, which the app keeps in a record of the patron's tickets. That record is cached in browser storage. The page also has a cancellation path for seats the patron holds tickets for, but as the code stands the seat grid never reaches it (see below). Every layout load reconciles the cached record with the seats the server still shows as booked.

The model has these parts:

- `JsText` (`jstext.dfy`): the JavaScript primitives the labels depend on. These are `Math.floor` on a quotient, the truncating `%`, `String.fromCharCode` (ToUint16 of its argument), and the decimal rendering of integers.
- `ListOps` (`lists.dfy`): the array operations used on state lists. `Filter` is `Array.prototype.filter`, `Toggled` is the add-or-remove update, and `Dedup` is `[...new Set(xs)]`. Each comes with its algebra.
- `SeatCodec` (`codec.dfy`): `seatNumberToLabel` and `formatSeats`. The partner inverse `LabelToSeatNumber` reads a label back, and the round trip is proved.
- `SeatBooking` (`booking.dfy`): the `useSeatBooking` hook. Its entities are datatypes: layout, seat value, owned ticket, patron record and stored slot. Its state is the class `SeatBookingHook`, one field per piece of React state. The stored record and the legacy storage key are fields too. Each returned callback is a method proved against the pure functions beside it (`BookedIndices`, `Reconciled`, `Merged`, `WithoutOwned`, …), and the invariant `Valid()` is preserved.
- `SeatButton` (`seat.dfy`) and `SeatGrid` (`grid.dfy`): the seat button (click guard, disabled flag, style class, status text, accessible name) and the grid (seat numbering, row letter, column number).
- `BookingActions` (`actions.dfy`): the server form action `handleFormAction`. The booking service is a function parameter from request to reply.
- `MainPage` (`page.dfy`): the `Main` page controller, as class `Page`. It holds the hook and the two dialog flags. It routes seat clicks, looks up the ticket id, and computes the summary chips and price. It submits the booking, closes the ticket dialog, and cancels bookings.

Each React state update is modelled as one atomic assignment to the field it sets, and a method reads each field as it is when the method starts. In the app a callback reads the values of the render it was created in instead, so a second call made by the same handler still sees the values from before the first call. The two readings agree for the handlers modelled here, because no later call in them reads a field that an earlier call in the same handler set. In `handleCancelBooking` (src/app/Main.tsx:112-117), `removeBookedSeats` updates booked seats through the previous value, the two clearing calls read nothing, and the layout reload reads browser storage afresh. In `handleCloseTicketDialog` (src/app/Main.tsx:70-71), closing the dialog sets a flag that `confirmBooking` does not read. The reload's own callback was created on the first render, and the model gives it that render's empty record and empty selection.

Some behaviours of the code are easy to miss, and the model keeps each of them:

- `toggleSeat` has no single-seat guard, so any number of seats can be selected. Only the first selected seat is sent to the booking service.
- A layout refresh does not clear the selection.
- `layoutError` is set by a failed load and never cleared by a later successful one.
- A cancellation submits only the first matching ticket. It then removes every seat selected for cancellation, locally.
- `deleteSeat` does not look at the response status. Any reply that parses counts as success.
- A seat the patron holds a ticket for is drawn booked after every load that derives booked seats (`MainPage.OwnedSeatsNotClickable`), and a booked seat's button is disabled (src/components/custom/Seat.tsx:22-32). Right after a booking the ticket dialog is open, and every way of closing it runs `handleCloseTicketDialog` (src/components/custom/TicketDialog.tsx:90 and :173), which books the selection. So a click on an owned seat does not reach the cancellation toggle of src/app/Main.tsx:57-66 from the grid, and the cancellation selection stays empty. The model still gives the toggle and the cancellation their full contracts.
- The layout callback was created on the first render, so it sees no record and no selection. Reconciliation therefore replaces the in-memory record with the pruned cached copy (`SeatBooking.LoadReplacesRecord`).

## Model

| member | source | states |
|---|---|---|
| JsText.FloorDiv | src/lib/generateTicketId.ts:25 | `Math.floor(a / b)`: the quotient rounded towards minus infinity, so `q*b <= a < q*b + b` for a positive divisor and `q*b >= a > q*b + b` for a negative one |
| JsText.TruncRem | src/lib/generateTicketId.ts:26 | JavaScript `%`: the remainder takes the dividend's sign and is smaller than the divisor in magnitude; it is the Euclidean remainder of `abs(a)` by `abs(b)`, carrying the sign of `a` |
| JsText.TruncDiv | src/lib/generateTicketId.ts:26 | the quotient JavaScript's `%` pairs with, rounded towards zero: `abs(q*b) <= abs(a) < abs(q*b) + abs(b)`, `q*b` has the sign of `a`, and it is Euclidean division for non-negative operands |
| JsText.TruncDivRem | src/lib/generateTicketId.ts:26 | for every non-zero divisor, `a` is the truncated quotient times `b` plus the JavaScript remainder |
| JsText.ToUint16 | src/lib/generateTicketId.ts:28 | the code unit `String.fromCharCode` keeps is in 0..65535, differs from the argument by a multiple of 65536, and equals any argument already in range |
| JsText.FromCharCode | src/lib/generateTicketId.ts:28 | a code below the surrogate range becomes the character with that code; otherwise the character carries the code unit ToUint16 of the code, or is U+FFFD when that unit is a surrogate |
| JsText.NatToString | src/lib/generateTicketId.ts:29-31 | the decimal rendering of a natural number is a non-empty digit string with no leading zero |
| JsText.NumberToString | src/lib/generateTicketId.ts:29-31 | the rendering of an integer is non-empty and is all digits exactly when the integer is non-negative; a non-negative integer renders as digits with no leading zero that read back as the integer; a negative one as "-" followed by such digits of its magnitude |
| JsText.DigitsValueOfNatToString | src/lib/generateTicketId.ts:29-31 | reading the decimal rendering of `n` back gives `n` |
| JsText.NatToStringInjective | src/lib/generateTicketId.ts:29-31 | distinct numbers render as distinct strings |
| SeatCodec.SeatNumberToLabel | src/lib/generateTicketId.ts:21-32 | every label has at least two characters; with zero seats per row it is NUL followed by "NaN"; its content for a seat `n >= 0` and `w > 0` seats per row is stated by `LetterOfSeat` and `NumberOfSeat` |
| SeatCodec.LabelParts | src/lib/generateTicketId.ts:21-32 | for a seat `n >= 0` in a row of `w > 0` seats: the number part is `n % w + 1`, within 1..w; when the row `n / w` is below 55231 (so that `65 + n / w` is below the surrogate range) the letter has code `65 + n / w`; in the first 26 rows it is one of A..Z |
| SeatCodec.NumberOfSeat | src/lib/generateTicketId.ts:26-31 | the label after its letter is the decimal rendering of `n % w + 1` |
| SeatCodec.LetterOfSeat | src/lib/generateTicketId.ts:25-28 | the label's letter is `String.fromCharCode(65 + floor(n / w))` with a non-negative row |
| SeatCodec.LetterCode | src/lib/generateTicketId.ts:28 | row letters below the surrogate range carry exactly the code `65 + row` |
| SeatCodec.ShortLabel | src/lib/generateTicketId.ts:21-32 | a seat in one of the first 26 rows and first nine columns is labelled by its row letter and one digit, `col + 1` |
| SeatCodec.FormatSeats | src/lib/generateTicketId.ts:37-42 | one label per seat number, in order, each the seat's `seatNumberToLabel` |
| SeatCodec.LabelRoundTrip | src/lib/generateTicketId.ts:21-32 | decoding the label of any non-negative seat whose row letter is representable gives back that seat number |
| SeatCodec.ReadLabel | src/lib/generateTicketId.ts:28-31 | a label with letter `65 + row` and number `col` decodes to `row * w + col - 1` |
| SeatCodec.LabelInjective | src/lib/generateTicketId.ts:21-32 | two such seats with the same label are the same seat |
| SeatCodec.FormatSeatsDistinct | src/lib/generateTicketId.ts:37-42 | a selection without repeats formats to labels without repeats |
| SeatCodecExamples.FormatSeatsDocExample | src/lib/generateTicketId.ts:19 | `[0, 5, 12]` formats to `["A1", "A6", "B1"]` with 12 seats per row |
| SeatCodecExamples.FormatSeatsTenPerRow | src/lib/generateTicketId.ts:19 | with 10 seats per row the same seats format to `["A1", "A6", "B3"]`, so the example holds only for 12 seats per row |
| ListOps.IncreasingUnique | src/hooks/useSeatBooking.ts:76-80 | two strictly increasing lists with the same members are equal |
| ListOps.Filter | src/hooks/useSeatBooking.ts:165-167 | `filter` keeps exactly the elements satisfying the predicate, in their original order, and never grows the list |
| ListOps.FilterMultiplicity | src/hooks/useSeatBooking.ts:165-167 | `filter` keeps each passing value as many times as it occurs and drops every failing value entirely |
| ListOps.FilterAppend | src/hooks/useSeatBooking.ts:95-97 | filtering a concatenation is concatenating the filtered parts |
| ListOps.FilterKeepsAll | src/hooks/useSeatBooking.ts:95-97 | a filter that every element passes returns the list unchanged |
| ListOps.FilterHead | src/app/Main.tsx:103-109 | the first element of a filtered list is the first element that passes |
| ListOps.FilterNonEmpty | src/app/Main.tsx:103-109 | a non-empty filtered list has a first passing element in the source list |
| ListOps.FilterNoDuplicates | src/hooks/useSeatBooking.ts:178-180 | filtering keeps a repeat-free list repeat-free |
| ListOps.Toggled | src/hooks/useSeatBooking.ts:188-192 | toggling flips the membership of the toggled seat and leaves every other seat's membership unchanged; a new seat is appended at the end; removing a seat drops all its occurrences and keeps the other seats in order with their counts |
| ListOps.ToggledNoDuplicates | src/hooks/useSeatBooking.ts:188-192 | toggling keeps a repeat-free selection repeat-free |
| ListOps.ToggleTwiceRestores | src/hooks/useSeatBooking.ts:188-192 | toggling an unselected seat twice restores the selection exactly |
| ListOps.Dedup | src/hooks/useSeatBooking.ts:209 | `[...new Set(xs)]` has exactly the members of `xs`, each once |
| ListOps.DedupKeepsDistinct | src/hooks/useSeatBooking.ts:209 | a repeat-free list passes through the set unchanged |
| ListOps.DedupKeepsPrefix | src/hooks/useSeatBooking.ts:209 | the set of a repeat-free list followed by more items starts with that list, in order |
| ListOps.FirstIndex | src/hooks/useSeatBooking.ts:209 | the index of the first occurrence of a member |
| ListOps.FirstIndexOfPrefix | src/hooks/useSeatBooking.ts:209 | the first occurrence in a prefix is the first occurrence in the whole list |
| ListOps.DedupFirstOccurrenceOrder | src/hooks/useSeatBooking.ts:209 | the set keeps insertion order: its members appear in the order of their first occurrences |
| SeatBooking.BookedIndices | src/hooks/useSeatBooking.ts:75-80 | the booked list holds exactly the positions of the entries that are not "available", in increasing order |
| SeatBooking.MarksFilterIncreasing | src/hooks/useSeatBooking.ts:76-80 | dropping the -1 marks leaves increasing positions whose marks are the positions themselves |
| SeatBooking.IncreasingNoDuplicates | src/hooks/useSeatBooking.ts:76-80 | a strictly increasing list has no repeats |
| SeatBooking.BookedMarks | src/hooks/useSeatBooking.ts:76-79 | one mark per seat key: the key's position when its value is not "available", -1 otherwise |
| SeatBooking.DropMarks | src/hooks/useSeatBooking.ts:80 | dropping the -1 marks keeps exactly the other marks, in order |
| SeatBooking.DropMarksMultiplicity | src/hooks/useSeatBooking.ts:80 | dropping the -1 marks keeps every other mark as often as it occurs |
| SeatBooking.Reconciled | src/hooks/useSeatBooking.ts:94-98 | the pruned record keeps name and email, and keeps exactly the cached tickets whose seat is booked, in order |
| SeatBooking.ReconciledMultiplicity | src/hooks/useSeatBooking.ts:94-98 | the pruned record holds each ticket on a booked seat as often as the cached record does, and no other ticket |
| SeatBooking.Normalized | src/hooks/useSeatBooking.ts:135-140 | the i-th ticket takes the i-th selected seat when there is one, keeps its own seat number otherwise, and is otherwise unchanged |
| SeatBooking.Merged | src/hooks/useSeatBooking.ts:133-162 | with no record the normalised reply becomes the record; otherwise the old record's tickets, name and email are kept and the normalised tickets are appended |
| SeatBooking.WithoutOwned | src/hooks/useSeatBooking.ts:165-168 | the record keeps name, email, and exactly the tickets whose seat is not being removed, in order |
| SeatBooking.WithoutOwnedMultiplicity | src/hooks/useSeatBooking.ts:165-168 | the record keeps each ticket on a seat not being removed as often as it held it, and no ticket on a removed seat |
| SeatBooking.WithoutSeats | src/hooks/useSeatBooking.ts:178-180 | the booked list keeps exactly the seats not being removed, in order |
| SeatBooking.WithoutSeatsMultiplicity | src/hooks/useSeatBooking.ts:178-180 | the booked list keeps every other seat as often as it held it, and no removed seat |
| SeatBooking.SeatNumbers | src/app/Main.tsx:54-55 | one seat number per ticket, the i-th being the i-th ticket's; a number is in it exactly when some ticket carries it |
| SeatBooking.BookedAfterLoad | src/hooks/useSeatBooking.ts:73-81 | a reply with a seats object makes booked seats exactly the positions of its non-"available" entries, increasing; any other reply leaves them unchanged |
| SeatBooking.OwnedAfterLoad | src/hooks/useSeatBooking.ts:83-100 | with a derivable reply and a stored record, the record becomes the stored name and email with exactly the stored tickets whose seat is booked; otherwise the record is unchanged |
| SeatBooking.StoredAfterLoad | src/hooks/useSeatBooking.ts:83-100 | the slot stays filled or empty as it was; with a derivable reply a stored record keeps its name and email and an ordered subset of its tickets, all on booked seats |
| SeatBooking.LoadReplacesRecord | src/hooks/useSeatBooking.ts:94-99 | a load that derives booked seats replaces the in-memory record with the pruned cached record, and stores that same record |
| SeatBooking.ReconciliationSound | src/hooks/useSeatBooking.ts:76-99 | after a load that derives booked seats, with a record stored whenever one is in memory, every ticket in the record is for a seat the layout shows as booked |
| SeatBooking.ConfirmedBookedSeats | src/hooks/useSeatBooking.ts:207-211 | confirming keeps every booked seat and adds every selected seat, once each, with the earlier booked seats first and in order |
| SeatBooking.TwoBookingsKeepBothTickets | src/hooks/useSeatBooking.ts:133-162 | booking seat x and then seat y keeps both tickets, in booking order, under the first reply's name and email |
| SeatBooking.NormalizedFromSelection | src/hooks/useSeatBooking.ts:135-138 | when the selection is at least as long as the reply, the tickets' seat numbers are the leading selected seats |
| SeatBooking.MockLayoutBooked | src/lib/utils.ts:12-29 | on the fallback layout the booked seats are exactly 3 and 5 (a4 and b2) |
| SeatBooking.SeatBookingHook.constructor | src/hooks/useSeatBooking.ts:43-50 | the first render: nothing selected or booked, no record or layout, loading, no error |
| SeatBooking.SeatBookingHook.LoadLayout | src/hooks/useSeatBooking.ts:70-106 | loading ends; a parsed reply is kept as the layout; the error is set when derivation fails and is never cleared; booked seats, record and stored record follow the reconciliation; the invariant holds |
| SeatBooking.SeatBookingHook.SetUserData | src/hooks/useSeatBooking.ts:133-162 | the record becomes the merge of the old record, the current selection and the reply, and the stored copy matches it |
| SeatBooking.SeatBookingHook.RemoveUserSeats | src/hooks/useSeatBooking.ts:163-174 | with a record and a non-empty list, the record loses exactly the tickets for those seats; otherwise nothing changes |
| SeatBooking.SeatBookingHook.RemoveBookedSeats | src/hooks/useSeatBooking.ts:176-181 | with a non-empty list, the booked list loses exactly those seats; otherwise nothing changes |
| SeatBooking.SeatBookingHook.ToggleSeat | src/hooks/useSeatBooking.ts:182-193 | a booked seat leaves the selection unchanged; any other seat is toggled; no booked seat is ever added |
| SeatBooking.SeatBookingHook.ToggleDelSeat | src/hooks/useSeatBooking.ts:194-205 | the seat is toggled in the cancellation selection, with no booked-seat guard |
| SeatBooking.SeatBookingHook.ConfirmBooking | src/hooks/useSeatBooking.ts:207-211 | booked becomes the set of the old booked and selected seats, and the selection is emptied |
| SeatBooking.SeatBookingHook.ClearSelection | src/hooks/useSeatBooking.ts:213-215 | the selection is empty |
| SeatBooking.SeatBookingHook.ClearDelSelection | src/hooks/useSeatBooking.ts:217-219 | the cancellation selection is empty |
| SeatBooking.SeatBookingHook.ResetBookings | src/hooks/useSeatBooking.ts:221-225 | booked becomes the default list, the selection is emptied and the legacy storage key is removed |
| SeatButton.HandleClick | src/components/custom/Seat.tsx:22-26 | a click calls `onToggle` at most once, with the seat's own number, and not at all exactly when the seat is booked |
| SeatButton.Disabled | src/components/custom/Seat.tsx:22-32 | the button is disabled exactly when its click would be ignored |
| SeatButton.Status | src/components/custom/Seat.tsx:47-49 | the status text is "Booked", "Selected" or "Available" exactly when the matching style applies |
| SeatButton.ExactlyOneStyle | src/components/custom/Seat.tsx:36-45 | exactly one of the booked, selected and available styles applies |
| SeatButton.Title | src/components/custom/Seat.tsx:47-50 | the tooltip is the accessible name, then " - ", then the status |
| SeatButton.AriaLabel | src/components/custom/Seat.tsx:50 | the accessible name is "Seat ", the row label, then the column number; that part is all digits, reading back as the number, exactly when the number is non-negative |
| SeatGrid.SeatRows | src/components/custom/SeatGrid.tsx:20-25 | `Array.from` gives `rows` rows of `seatsPerRow` seats, with negative lengths giving none |
| SeatGrid.Range | src/components/custom/SeatGrid.tsx:20-25 | the seat numbers 0..n-1 in order |
| SeatGrid.SeatRowsEnumerateSeats | src/components/custom/SeatGrid.tsx:20-25 | read row by row, the grid lists every seat number from 0 to `rows * seatsPerRow - 1` once, in order |
| SeatGrid.RowsFrom | src/components/custom/SeatGrid.tsx:20-25 | the rows from row k onwards list the seats from `k * seatsPerRow` onwards |
| SeatGrid.CellProps | src/components/custom/SeatGrid.tsx:53-62 | the seat in row r and column c has number `r * w + c`, and is selected or booked exactly when that number is in the matching list |
| SeatGrid.RowLabel | src/components/custom/SeatGrid.tsx:39 | the row label is one character, and for the first 26 rows it is the letter A..Z at the row's index |
| SeatGrid.ColNumber | src/components/custom/SeatGrid.tsx:61 | the column number is one more than the JavaScript remainder; for a non-negative seat it lies in 1..abs(w) and is `n % abs(w) + 1` |
| SeatCodec.CellCoordinates | src/components/custom/SeatGrid.tsx:22 | seat `r * w + c` with `c < w` lies in row r at column c |
| SeatGrid.CellLabel | src/components/custom/SeatGrid.tsx:39-61 | the column number is `c + 1`, within 1..w, and the row letter followed by the column number is the seat's label |
| SeatGrid.CellAriaLabel | src/components/custom/Seat.tsx:50 | every grid button is named "Seat " followed by its seat's label |
| BookingActions.BookRequestOf | src/app/actions/bookingActions.ts:17-30 | the request carries the form's seats as the seat code, its name as the username, and its email |
| BookingActions.HandleFormAction | src/app/actions/bookingActions.ts:11-65 | success exactly when the service accepts; a rejection and a thrown call give their two failure messages with no data; acceptance gives one ticket with seat number -1, the service's ticket id, the seat code as title, and the form's name and email |
| MainPage.RouteOf | src/app/Main.tsx:54-66 | a click goes to the cancellation toggle exactly when the patron holds a ticket for that seat |
| MainPage.OwnedSeatNumbers | src/app/Main.tsx:54-55 | the seat numbers of the patron's tickets, one per ticket: a number is in the list exactly when the patron owns that seat, and the list is empty without a record |
| MainPage.FindTicket | src/app/Main.tsx:80-82 | `find` gives the first ticket for the seat, or nothing when no ticket is for it |
| MainPage.TicketIdFor | src/app/Main.tsx:77-87 | with a record and a selection, the id of the first ticket for the first selected seat; "" when there is no record, no selection or no such ticket |
| MainPage.TicketToCancel | src/app/Main.tsx:103-109 | the submitted ticket is that of the first ticket whose seat is selected for cancellation; there is none exactly when no ticket's seat is selected |
| MainPage.TotalPriceMeaning | src/app/Main.tsx:243 | the summary total is the confirmation dialog's total less $12 per seat to cancel, and equals it when nothing is to be cancelled |
| MainPage.TotalPrice | src/app/Main.tsx:243 | the summary total is a multiple of $12, negative exactly when more seats are to be cancelled than booked, and zero exactly when the two counts are equal |
| MainPage.DialogTotalPrice | src/app/Main.tsx:303 | the confirmation dialog's total is a non-negative multiple of $12, zero exactly when nothing is selected |
| MainPage.TicketDialogSeats | src/app/Main.tsx:314-316 | the seats prop the page hands the ticket dialog holds exactly the record's tickets whose seat is selected, in record order |
| MainPage.TicketDialogSeatsMultiplicity | src/app/Main.tsx:314-316 | that prop holds each such ticket as often as the record does, and no other ticket |
| MainPage.NewTicketIsShown | src/app/Main.tsx:45-52 | after a confirmed booking, the seats prop the page hands the ticket dialog holds the new ticket; on a first booking the ticket id handed to the dialog is the new ticket's |
| MainPage.SummaryChipLabel | src/app/Main.tsx:204-231 | the label a summary chip computes inline is the seat's `seatNumberToLabel` |
| MainPage.FormSeatsField | src/components/custom/ConfirmBookingDialog.tsx:144-148 | the hidden seats field is the first selected seat's label, or "" with no selection |
| MainPage.BookingRecordsFirstSelectedSeat | src/components/custom/ConfirmBookingDialog.tsx:61-68 | an accepted booking of a selection adds exactly one ticket at the end of the record: for the first selected seat, with the service's ticket id and that seat's label as title |
| MainPage.CancelledSeatsStayGone | src/app/Main.tsx:100-121 | after a cancellation, no seat selected for cancellation is owned, even after the following refresh |
| MainPage.OwnedSeatsNotClickable | src/components/custom/Seat.tsx:22-32 | after a load that derives booked seats, every owned seat is drawn booked, so its grid button ignores clicks |
| MainPage.Page.constructor | src/hooks/useSeatBooking.ts:108-114 | the first render followed by the mount load: dialogs closed, nothing selected, loading done, and the booked seats, record, stored record, error and layout the first load derives |
| MainPage.Page.HandleSeatToggle | src/app/Main.tsx:57-66 | an owned seat toggles the cancellation selection; any other seat goes through the booking toggle and its booked guard |
| MainPage.Page.HandleConfirmBooking | src/app/Main.tsx:45-52 | the reply is merged into the record with the current selection; the confirmation dialog closes and the ticket dialog opens |
| MainPage.Page.SubmitBooking | src/components/custom/ConfirmBookingDialog.tsx:61-68 | the form action gets the first selected seat's label; on success the reply is merged and the ticket dialog opens; otherwise nothing on the page changes |
| MainPage.Page.HandleCloseTicketDialog | src/app/Main.tsx:68-72 | the ticket dialog closes, the selection moves to booked, and the reload sets booked seats, record and stored record; loading ends, the error is set if the reload fails and is kept otherwise, and a parsed reply becomes the layout |
| MainPage.Page.HandleCancelBooking | src/app/Main.tsx:100-121 | it submits the first matching ticket, or nothing without a record, a cancellation selection or a match; a thrown call changes nothing; a reply drops every cancelled seat from the record and from booked, clears both selections and reloads, after which loading has ended, the error is set if the reload fails and kept otherwise, and a parsed reply is the layout |
| MainPage.Page.CancellationDone | src/app/Main.tsx:112-117 | the record and the booked seats lose the cancelled seats, both selections are empty, and the reload then sets booked seats, record, stored record, layout, loading and error as a load does |

## Left out

- Network I/O (`getLayout`, `deleteSeat`, the booking POST) is modelled by its possible outcomes, given as parameters: `LayoutReply`, `CancelReply`, and the service function of `HandleFormAction`. The mock-mode switch read from the environment is not modelled. Its effect is one possible reply, `MockLayout`.
- Browser storage is the hook's `storedUserData` and `storedLegacy` fields. JSON parsing of the stored record is the `StoredRecord` datatype: absent, unreadable or parsed. A parsed record with no `seats` array would throw inside the load and set the error. That case is not modelled.
- `generateTicketId`, `formatDate` and `downloadFile` read the clock, randomness and the DOM. They are not part of this model.
- The dialog components' rendering, `page.tsx`, `Navbar`, `Footer`, `Loading`, `ThemeToggle`, the desktop client under `CinemaDesktop`, and the end-to-end tests are not part of this model. From `ConfirmBookingDialog` only the hidden seats field and the success effect are modelled.
- React scheduling is not modelled: batching, re-renders and the order of effects. Each state update is one atomic assignment, and an `async` handler's awaits do not interleave with other events.
- `revalidatePath` and all console logging are left out because they have no effect on the modelled state.
- JsText.FromCharCode: a code that lands in the UTF-16 surrogate range (D800–DFFF) gives U+FFFD, because a Dafny `char` cannot hold a lone surrogate. This happens exactly for the rows whose code `65 + row`, taken modulo 65536, lies in D800–DFFF: rows 55231 to 57278, rows −10305 to −8258, and every shift of these ranges by a multiple of 65536.
- SeatBooking.SeatBookingHook.LoadLayout: the invariant `Valid()` says the stored record is the in-memory record. That assumes this page is the only writer of the storage slot. If another tab wrote the slot in between, the next load in the app would adopt that record. If the slot were cleared in between, the in-memory record would stay and would no longer match storage. Neither case is modelled. `SeatBooking.ReconciliationSound` itself asks only that a record is stored whenever one is in memory.
- MainPage.TicketDialogSeats: the ticket dialog declares its `selectedSeats` prop as seat numbers (src/components/custom/TicketDialog.tsx:21), but the page passes ticket objects. The dialog runs `formatSeats` on them (TicketDialog.tsx:38) and prints the result, so in the app every ticket is shown as NUL followed by "NaN". The model stops at the prop's value. It does not model what the dialog renders or downloads.
- SeatBooking.LayoutReply: `getLayout` may resolve to JSON `null`. The app then sets the layout to `null` and throws on reading `.seats`, so the error screen shows. A reply always carries a layout in the model, and a thrown reply keeps the earlier layout, so the null layout is not represented.
- Numbers are unbounded integers. JavaScript doubles lose precision beyond 2^53, and seat numbers that large are not modelled.
- BookingActions.HandleFormAction: the form fields are strings, so a missing field (`formData.get` returning `null`) is not modelled. A reply without a `ticket` field is not modelled either, so the ticket is always a string.
