/**
 * The client-side reservation state of the seat map: the seats selected for a
 * new booking, the seats selected for cancellation, the booked seats derived
 * from the latest layout, the patron's owned-ticket record and its persisted
 * copy in browser storage.
 */
module SeatBooking {
  import opened Optional
  import opened ListOps

  /** A seat of the layout is either the literal "available" or a booking marker. */
  datatype SeatValue = Available | Booked(status: string, ticketId: string)

  /** One key of the layout's `seats` object, in the object's key order. */
  datatype SeatEntry = SeatEntry(key: string, value: SeatValue)

  /** The layout as the server sends it; `seats` is None when the reply has no seats object. */
  datatype SeatLayout = SeatLayout(rows: int, cols: int, seats: Option<seq<SeatEntry>>)

  /** One ticket the patron holds: the seat it covers, its id and the label it was booked under. */
  datatype OwnedSeat = OwnedSeat(seatNumber: int, ticketId: string, seatTitle: string)

  /** The patron's owned-ticket record. */
  datatype UserData = UserData(name: string, email: string, seats: seq<OwnedSeat>)

  /** The storage slot "cinema_seat_booking_userData": missing, not parsable, or a record. */
  datatype StoredRecord = Absent | Unreadable | Stored(record: UserData)

  /** What fetching the layout gives: a rejected promise, or a parsed JSON reply. */
  datatype LayoutReply = LayoutThrew | LayoutJson(layout: SeatLayout)

  const DefaultBookedSeats: seq<int> := [2, 3, 5, 8, 10, 15, 18, 20, 25]

  // ---------------------------------------------------------------------------
  // Booked seats of a layout

  /** Each key's position if its seat is not "available", otherwise -1. */
  function BookedMarks(entries: seq<SeatEntry>): (marks: seq<int>)
    ensures |marks| == |entries|
    ensures forall i :: 0 <= i < |marks| ==> (marks[i] == i <==> entries[i].value != Available)
    ensures forall i :: 0 <= i < |marks| ==> marks[i] == i || marks[i] == -1
  {
    seq(|entries|, i requires 0 <= i < |entries| => if entries[i].value != Available then i else -1)
  }

  /** `.filter((index) => index !== -1)`. */
  function DropMarks(marks: seq<int>): (kept: seq<int>)
    ensures forall x :: x in kept <==> x in marks && x != -1
    ensures IsSubsequence(kept, marks)
  {
    var kept := Filter(marks, i => i != -1);
    forall x | x in marks && x != -1 ensures x in kept {
      var i :| 0 <= i < |marks| && marks[i] == x;
    }
    kept
  }

  /** Dropping the -1 marks keeps every other mark as often as it occurs. */
  lemma DropMarksMultiplicity(marks: seq<int>)
    ensures forall x :: multiset(DropMarks(marks))[x] == if x != -1 then multiset(marks)[x] else 0
  {
    FilterMultiplicity(marks, i => i != -1);
  }

  /**
   * The booked seats of a layout, by key position: the positions whose value is
   * not "available", in increasing order.
   */
  function BookedIndices(entries: seq<SeatEntry>): (booked: seq<int>)
    ensures forall i :: i in booked <==> 0 <= i < |entries| && entries[i].value != Available
    ensures StrictlyIncreasing(booked)
  {
    var marks := BookedMarks(entries);
    MarksFilterIncreasing(marks, 0);
    assert marks[0..] == marks;
    forall i | 0 <= i < |entries| && entries[i].value != Available
      ensures i in DropMarks(marks)
    {
      assert marks[i] == i;
    }
    DropMarks(marks)
  }

  /** Dropping the -1 marks of a suffix leaves increasing positions of that suffix. */
  lemma {:induction false} MarksFilterIncreasing(marks: seq<int>, k: nat)
    requires k <= |marks|
    requires forall j :: 0 <= j < |marks| ==> marks[j] == -1 || marks[j] == j
    ensures forall x :: x in DropMarks(marks[k..]) ==> k <= x < |marks| && marks[x] == x
    ensures StrictlyIncreasing(DropMarks(marks[k..]))
    decreases |marks| - k
  {
    if k < |marks| {
      MarksFilterIncreasing(marks, k + 1);
      assert marks[k..][1..] == marks[k + 1..];
      var rest := DropMarks(marks[k + 1..]);
      assert DropMarks(marks[k..]) == if marks[k] != -1 then [marks[k]] + rest else rest;
    }
  }

  lemma IncreasingNoDuplicates(s: seq<int>)
    requires StrictlyIncreasing(s)
    ensures NoDuplicates(s)
  {
  }

  // ---------------------------------------------------------------------------
  // The owned-ticket record

  /** Reconciliation: keep only the owned tickets whose seat the layout shows as booked. */
  function Reconciled(cached: UserData, booked: seq<int>): (pruned: UserData)
    ensures pruned.name == cached.name && pruned.email == cached.email
    ensures forall e :: e in pruned.seats ==> e in cached.seats && e.seatNumber in booked
    ensures forall e :: e in cached.seats && e.seatNumber in booked ==> e in pruned.seats
    ensures IsSubsequence(pruned.seats, cached.seats)
  {
    cached.(seats := Filter(cached.seats, (e: OwnedSeat) => e.seatNumber in booked))
  }

  /** The pruned record holds each kept ticket as often as the cached record does, and no other. */
  lemma ReconciledMultiplicity(cached: UserData, booked: seq<int>)
    ensures forall e :: multiset(Reconciled(cached, booked).seats)[e]
                     == if e.seatNumber in booked then multiset(cached.seats)[e] else 0
  {
    FilterMultiplicity(cached.seats, (e: OwnedSeat) => e.seatNumber in booked);
  }

  /**
   * The tickets of a booking reply tied to the current selection: the i-th ticket
   * takes the i-th selected seat when there is one and keeps its own seat number
   * otherwise.
   */
  function Normalized(incoming: seq<OwnedSeat>, selected: seq<int>): (tickets: seq<OwnedSeat>)
    ensures |tickets| == |incoming|
    ensures forall i :: 0 <= i < |tickets| ==>
              tickets[i].ticketId == incoming[i].ticketId && tickets[i].seatTitle == incoming[i].seatTitle
    ensures forall i :: 0 <= i < |tickets| && i < |selected| ==> tickets[i].seatNumber == selected[i]
    ensures forall i :: |selected| <= i < |tickets| ==> tickets[i].seatNumber == incoming[i].seatNumber
  {
    seq(|incoming|, i requires 0 <= i < |incoming| =>
      incoming[i].(seatNumber := if i < |selected| then selected[i] else incoming[i].seatNumber))
  }

  /**
   * The record after a booking reply is folded in: the first record is the
   * normalised reply; after that the reply's tickets are appended to the
   * existing ones and the existing name and email stay.
   */
  function Merged(existing: Option<UserData>, selected: seq<int>, incoming: UserData): (merged: UserData)
    ensures existing.None? ==>
              merged.name == incoming.name && merged.email == incoming.email
              && merged.seats == Normalized(incoming.seats, selected)
    ensures existing.Some? ==>
              merged.name == existing.value.name && merged.email == existing.value.email
              && |merged.seats| == |existing.value.seats| + |incoming.seats|
              && merged.seats[..|existing.value.seats|] == existing.value.seats
              && merged.seats[|existing.value.seats|..] == Normalized(incoming.seats, selected)
  {
    var tickets := Normalized(incoming.seats, selected);
    match existing
    case None => incoming.(seats := tickets)
    case Some(record) =>
      var merged := record.(seats := record.seats + tickets);
      assert merged.seats[..|record.seats|] == record.seats;
      merged
  }

  /** Removal keeps each other ticket as often as the record holds it, and no ticket on a listed seat. */
  lemma WithoutOwnedMultiplicity(record: UserData, seatNumbers: seq<int>)
    ensures forall e :: multiset(WithoutOwned(record, seatNumbers).seats)[e]
                     == if e.seatNumber !in seatNumbers then multiset(record.seats)[e] else 0
  {
    FilterMultiplicity(record.seats, (e: OwnedSeat) => e.seatNumber !in seatNumbers);
  }

  /** `removeUserSeats`: drop the tickets whose seat number is listed. */
  function WithoutOwned(record: UserData, seatNumbers: seq<int>): (rest: UserData)
    ensures rest.name == record.name && rest.email == record.email
    ensures forall e :: e in rest.seats <==> e in record.seats && e.seatNumber !in seatNumbers
    ensures IsSubsequence(rest.seats, record.seats)
  {
    record.(seats := Filter(record.seats, (e: OwnedSeat) => e.seatNumber !in seatNumbers))
  }

  /** `removeBookedSeats`: drop the listed seat numbers. */
  function WithoutSeats(seats: seq<int>, seatNumbers: seq<int>): (rest: seq<int>)
    ensures forall x :: x in rest <==> x in seats && x !in seatNumbers
    ensures IsSubsequence(rest, seats)
  {
    Filter(seats, x => x !in seatNumbers)
  }

  /** Removal keeps every other seat as often as the list holds it, and no removed seat. */
  lemma WithoutSeatsMultiplicity(seats: seq<int>, seatNumbers: seq<int>)
    ensures forall x :: multiset(WithoutSeats(seats, seatNumbers))[x] == if x !in seatNumbers then multiset(seats)[x] else 0
  {
    FilterMultiplicity(seats, x => x !in seatNumbers);
  }


  function SeatNumbers(tickets: seq<OwnedSeat>): (numbers: seq<int>)
    ensures |numbers| == |tickets|
    ensures forall i :: 0 <= i < |tickets| ==> numbers[i] == tickets[i].seatNumber
    ensures forall n :: n in numbers <==> exists i :: 0 <= i < |tickets| && tickets[i].seatNumber == n
  {
    var numbers := seq(|tickets|, i requires 0 <= i < |tickets| => tickets[i].seatNumber);
    assert forall i :: 0 <= i < |tickets| ==> numbers[i] == tickets[i].seatNumber;
    numbers
  }

  // ---------------------------------------------------------------------------
  // What one layout load does to the derived state

  /** The reply is a layout whose seats object is present, so booked seats can be derived. */
  predicate Derivable(reply: LayoutReply) {
    reply.LayoutJson? && reply.layout.seats.Some?
  }

  function BookedAfterLoad(booked: seq<int>, reply: LayoutReply): (after: seq<int>)
    ensures Derivable(reply) ==>
              StrictlyIncreasing(after)
              && forall i :: i in after <==> 0 <= i < |reply.layout.seats.value| && reply.layout.seats.value[i].value != Available
    ensures !Derivable(reply) ==> after == booked
  {
    if Derivable(reply) then BookedIndices(reply.layout.seats.value) else booked
  }

  /**
   * The record a load leaves in memory. The callback that stores it was captured
   * on the first render, when there was no record and no selection, so the pruned
   * cached record is merged into nothing and selection [] leaves its seat numbers.
   */
  function OwnedAfterLoad(owned: Option<UserData>, stored: StoredRecord, reply: LayoutReply): (after: Option<UserData>)
    ensures after.Some? <==> owned.Some? || (Derivable(reply) && stored.Stored?)
    ensures !(Derivable(reply) && stored.Stored?) ==> after == owned
    ensures Derivable(reply) && stored.Stored? ==>
              after.value.name == stored.record.name && after.value.email == stored.record.email
              && forall e :: e in after.value.seats <==>
                   e in stored.record.seats && e.seatNumber in BookedIndices(reply.layout.seats.value)
  {
    if Derivable(reply) && stored.Stored? then
      var pruned := Reconciled(stored.record, BookedIndices(reply.layout.seats.value));
      assert Normalized(pruned.seats, []) == pruned.seats;
      Some(Merged(None, [], pruned))
    else
      owned
  }

  function StoredAfterLoad(stored: StoredRecord, reply: LayoutReply): (after: StoredRecord)
    ensures after.Stored? <==> stored.Stored?
    ensures !Derivable(reply) || !stored.Stored? ==> after == stored
    ensures Derivable(reply) && stored.Stored? ==>
              after.record.name == stored.record.name && after.record.email == stored.record.email
              && IsSubsequence(after.record.seats, stored.record.seats)
              && forall e :: e in after.record.seats ==> e.seatNumber in BookedIndices(reply.layout.seats.value)
  {
    if Derivable(reply) && stored.Stored? then
      var pruned := Reconciled(stored.record, BookedIndices(reply.layout.seats.value));
      assert Normalized(pruned.seats, []) == pruned.seats;
      Stored(Merged(None, [], pruned))
    else
      stored
  }

  /** A load replaces the record by the pruned cached copy instead of appending to it. */
  lemma LoadReplacesRecord(owned: Option<UserData>, stored: StoredRecord, reply: LayoutReply)
    requires Derivable(reply) && stored.Stored?
    ensures OwnedAfterLoad(owned, stored, reply)
         == Some(Reconciled(stored.record, BookedAfterLoad([], reply)))
    ensures StoredAfterLoad(stored, reply) == Stored(OwnedAfterLoad(owned, stored, reply).value)
  {
    var pruned := Reconciled(stored.record, BookedIndices(reply.layout.seats.value));
    assert Normalized(pruned.seats, []) == pruned.seats;
  }

  /**
   * Reconciliation soundness: after a load that derived booked seats, every
   * ticket of the record covers a seat the layout shows as booked.
   */
  lemma ReconciliationSound(owned: Option<UserData>, stored: StoredRecord, reply: LayoutReply)
    requires Derivable(reply)
    requires owned.Some? ==> stored.Stored?
    ensures OwnedAfterLoad(owned, stored, reply).Some? ==>
              forall e :: e in OwnedAfterLoad(owned, stored, reply).value.seats ==>
                e.seatNumber in BookedAfterLoad([], reply)
  {
    if stored.Stored? {
      LoadReplacesRecord(owned, stored, reply);
    }
  }

  // ---------------------------------------------------------------------------
  // Properties of the list updates

  /**
   * `confirmBooking`'s new booked list: every earlier booked seat and every
   * selected seat, each once, the earlier booked seats first and in their order.
   */
  lemma ConfirmedBookedSeats(booked: seq<int>, selected: seq<int>)
    requires NoDuplicates(booked)
    ensures forall x :: x in Dedup(booked + selected) <==> x in booked || x in selected
    ensures NoDuplicates(Dedup(booked + selected))
    ensures |booked| <= |Dedup(booked + selected)| && Dedup(booked + selected)[..|booked|] == booked
  {
    var all := booked + selected;
    var r := Dedup(all);
    forall x | x in booked || x in selected ensures x in r {
      if x in booked {
        var i :| 0 <= i < |booked| && booked[i] == x;
        assert all[i] == x;
      } else {
        var j :| 0 <= j < |selected| && selected[j] == x;
        assert all[|booked| + j] == x;
      }
    }
    DedupKeepsPrefix(booked, selected);
  }

  /**
   * Merge, not clobber: booking seat x and then seat y, one ticket each, leaves
   * both tickets in the record, in booking order, under the first reply's name.
   */
  lemma TwoBookingsKeepBothTickets(first: UserData, x: int, second: UserData, y: int)
    requires |first.seats| == 1 && |second.seats| == 1
    ensures var r := Merged(Some(Merged(None, [x], first)), [y], second);
            r.name == first.name && r.email == first.email
            && r.seats == [first.seats[0].(seatNumber := x), second.seats[0].(seatNumber := y)]
  {
    var r1 := Merged(None, [x], first);
    assert r1.seats == [first.seats[0].(seatNumber := x)];
    var r2 := Merged(Some(r1), [y], second);
    assert r2.seats[1..] == [second.seats[0].(seatNumber := y)];
    assert r2.seats == r2.seats[..1] + r2.seats[1..];
  }

  /**
   * A booking reply's placeholder seat number is replaced by the selected seat
   * whenever the selection is at least as long as the reply.
   */
  lemma NormalizedFromSelection(incoming: seq<OwnedSeat>, selected: seq<int>)
    requires |incoming| <= |selected|
    ensures SeatNumbers(Normalized(incoming, selected)) == selected[..|incoming|]
  {
  }

  /** The layout served when the server is unreachable or mocking is on. */
  const MockLayout: SeatLayout := SeatLayout(3, 4, Some([
    SeatEntry("a1", Available), SeatEntry("a2", Available), SeatEntry("a3", Available),
    SeatEntry("a4", Booked("booked", "MOCK-TICKET-A4")),
    SeatEntry("b1", Available), SeatEntry("b2", Booked("booked", "MOCK-TICKET-B2")),
    SeatEntry("b3", Available), SeatEntry("b4", Available),
    SeatEntry("c1", Available), SeatEntry("c2", Available), SeatEntry("c3", Available), SeatEntry("c4", Available)]))

  /** On the fallback layout, seats a4 and b2 are booked: indices 3 and 5 of a 4-wide hall. */
  lemma MockLayoutBooked()
    ensures BookedIndices(MockLayout.seats.value) == [3, 5]
  {
    var booked := BookedIndices(MockLayout.seats.value);
    forall x ensures x in booked <==> x in [3, 5] {
      MockEntryBooked(x);
    }
    IncreasingUnique(booked, [3, 5]);
  }

  lemma MockEntryBooked(x: int)
    ensures var entries := MockLayout.seats.value;
            0 <= x < |entries| && entries[x].value != Available <==> x == 3 || x == 5
  {
    var entries := MockLayout.seats.value;
    if 0 <= x < |entries| {
      assert x == 0 || x == 1 || x == 2 || x == 3 || x == 4 || x == 5 || x == 6
          || x == 7 || x == 8 || x == 9 || x == 10 || x == 11;
    }
  }

  // ---------------------------------------------------------------------------
  // The state container

  class SeatBookingHook {
    var selectedSeats: seq<int>
    var selectedDelSeats: seq<int>
    var bookedSeats: seq<int>
    var userData: Option<UserData>
    var data: Option<SeatLayout>
    var layoutLoading: bool
    var layoutError: bool
    /** Browser storage "cinema_seat_booking_userData". */
    var storedUserData: StoredRecord
    /** Browser storage "cinema_seat_booking", the legacy selection cache. */
    var storedLegacy: Option<string>

    /** No list holds a seat twice, and the persisted record is the in-memory one. */
    ghost predicate Valid()
      reads this
    {
      && NoDuplicates(selectedSeats)
      && NoDuplicates(selectedDelSeats)
      && NoDuplicates(bookedSeats)
      && (userData.Some? ==> storedUserData == Stored(userData.value))
    }

    /** The state of the first render; storage holds whatever an earlier visit left. */
    constructor (storedUserData: StoredRecord, storedLegacy: Option<string>)
      ensures Valid()
      ensures selectedSeats == [] && selectedDelSeats == [] && bookedSeats == []
      ensures userData == None && data == None && layoutLoading && !layoutError
      ensures this.storedUserData == storedUserData && this.storedLegacy == storedLegacy
    {
      selectedSeats, selectedDelSeats, bookedSeats := [], [], [];
      userData, data := None, None;
      layoutLoading, layoutError := true, false;
      this.storedUserData, this.storedLegacy := storedUserData, storedLegacy;
    }

    /**
     * `loadLayout`: store the reply, derive the booked seats, and reconcile the
     * stored record with them. A failure sets the error flag, which no later load
     * clears, and leaves the booked seats and the record as they were.
     */
    method LoadLayout(reply: LayoutReply)
      requires Valid()
      modifies this`layoutLoading, this`data, this`layoutError, this`bookedSeats, this`userData, this`storedUserData
      ensures Valid()
      ensures !layoutLoading
      ensures data == if reply.LayoutJson? then Some(reply.layout) else old(data)
      ensures layoutError == (old(layoutError) || !Derivable(reply))
      ensures bookedSeats == BookedAfterLoad(old(bookedSeats), reply)
      ensures userData == OwnedAfterLoad(old(userData), old(storedUserData), reply)
      ensures storedUserData == StoredAfterLoad(old(storedUserData), reply)
    {
      layoutLoading := true;
      match reply {
        case LayoutThrew =>
          layoutError := true;
        case LayoutJson(layout) =>
          data := Some(layout);
          if layout.seats.None? {
            layoutError := true;
          } else {
            var booked := BookedIndices(layout.seats.value);
            IncreasingNoDuplicates(booked);
            bookedSeats := booked;
            if storedUserData.Stored? {
              var pruned := Reconciled(storedUserData.record, booked);
              var record := Merged(None, [], pruned);
              storedUserData := Stored(record);
              userData := Some(record);
            }
          }
      }
      layoutLoading := false;
    }

    /**
     * `setUserData`: fold a booking reply into the record, tying its tickets to
     * the current selection, and persist the result.
     */
    method SetUserData(incoming: UserData)
      requires Valid()
      modifies this`userData, this`storedUserData
      ensures Valid()
      ensures userData == Some(Merged(old(userData), selectedSeats, incoming))
    {
      var record := Merged(userData, selectedSeats, incoming);
      storedUserData := Stored(record);
      userData := Some(record);
    }

    /** `removeUserSeats`: a no-op without a record or for an empty list. */
    method RemoveUserSeats(seatNumbers: seq<int>)
      requires Valid()
      modifies this`userData, this`storedUserData
      ensures Valid()
      ensures userData == if old(userData).None? || seatNumbers == [] then old(userData)
                          else Some(WithoutOwned(old(userData).value, seatNumbers))
      ensures old(userData).None? ==> storedUserData == old(storedUserData)
    {
      if userData.None? || |seatNumbers| == 0 {
        return;
      }
      var record := WithoutOwned(userData.value, seatNumbers);
      storedUserData := Stored(record);
      userData := Some(record);
    }

    /** `removeBookedSeats`: a no-op for an empty list. */
    method RemoveBookedSeats(seatNumbers: seq<int>)
      requires Valid()
      modifies this`bookedSeats
      ensures Valid()
      ensures bookedSeats == if seatNumbers == [] then old(bookedSeats) else WithoutSeats(old(bookedSeats), seatNumbers)
    {
      if |seatNumbers| == 0 {
        return;
      }
      FilterNoDuplicates(bookedSeats, x => x !in seatNumbers);
      bookedSeats := WithoutSeats(bookedSeats, seatNumbers);
    }

    /** `toggleSeat`: a booked seat is ignored; otherwise the seat is removed or appended. */
    method ToggleSeat(seatNumber: int)
      requires Valid()
      modifies this`selectedSeats
      ensures Valid()
      ensures selectedSeats == if seatNumber in bookedSeats then old(selectedSeats)
                               else Toggled(old(selectedSeats), seatNumber)
      ensures forall s :: s in selectedSeats && s !in old(selectedSeats) ==> s !in bookedSeats
    {
      if seatNumber in bookedSeats {
        return;
      }
      ToggledNoDuplicates(selectedSeats, seatNumber);
      selectedSeats := Toggled(selectedSeats, seatNumber);
    }

    /** `toggleDelSeat`: the same toggle on the cancellation list, with no booked-seat guard. */
    method ToggleDelSeat(seatNumber: int)
      requires Valid()
      modifies this`selectedDelSeats
      ensures Valid()
      ensures selectedDelSeats == Toggled(old(selectedDelSeats), seatNumber)
    {
      ToggledNoDuplicates(selectedDelSeats, seatNumber);
      selectedDelSeats := Toggled(selectedDelSeats, seatNumber);
    }

    /** `confirmBooking`: the selection joins the booked seats and is emptied. */
    method ConfirmBooking()
      requires Valid()
      modifies this`bookedSeats, this`selectedSeats
      ensures Valid()
      ensures bookedSeats == Dedup(old(bookedSeats) + old(selectedSeats))
      ensures selectedSeats == []
    {
      bookedSeats := Dedup(bookedSeats + selectedSeats);
      selectedSeats := [];
    }

    method ClearSelection()
      requires Valid()
      modifies this`selectedSeats
      ensures Valid() && selectedSeats == []
    {
      selectedSeats := [];
    }

    method ClearDelSelection()
      requires Valid()
      modifies this`selectedDelSeats
      ensures Valid() && selectedDelSeats == []
    {
      selectedDelSeats := [];
    }

    /**
     * `resetBookings`: the booked seats go back to the defaults, the selection is
     * emptied and the legacy storage slot is removed; the owned record and its
     * slot stay.
     */
    method ResetBookings()
      requires Valid()
      modifies this`bookedSeats, this`selectedSeats, this`storedLegacy
      ensures Valid()
      ensures bookedSeats == DefaultBookedSeats && selectedSeats == [] && storedLegacy == None
    {
      bookedSeats := DefaultBookedSeats;
      selectedSeats := [];
      storedLegacy := None;
    }
  }
}
