/** The booking editor (app/src/routes/edit-booking.tsx): the availability
    check that leaves the edited booking out, and the update payload. */
module EditBooking {
  import opened Wrappers
  import opened Seqs
  import opened Data
  import NewBooking

  /** A booking takes part in the check when it is for the room and is not the
      excluded one (`b.id !== undefined` holds for every booking). */
  predicate Considered(b: Booking, room: Room, excludeBookingId: Option<string>) {
    b.resourceId == room.id && (excludeBookingId.None? || b.id != excludeBookingId.value)
  }

  /** Some considered booking overlaps the interval. */
  predicate OthersBookedDuring(room: Room, formStart: int, formEnd: int, allBookings: seq<Booking>,
                               excludeBookingId: Option<string>, instant: string -> Option<int>) {
    exists i :: 0 <= i < |allBookings| && Considered(allBookings[i], room, excludeBookingId)
      && NewBooking.ConflictsWith(allBookings[i], formStart, formEnd, instant)
  }

  /** `checkAvailability(room, formStart, formEnd, allBookings, excludeBookingId)` */
  function CheckAvailability(room: Room, formStart: Option<int>, formEnd: Option<int>, allBookings: seq<Booking>,
                             excludeBookingId: Option<string>, instant: string -> Option<int>): (r: NewBooking.Status)
    ensures r == NewBooking.InvalidTime <==> !NewBooking.ValidInterval(formStart, formEnd)
    ensures r == NewBooking.Conflict <==>
      && NewBooking.ValidInterval(formStart, formEnd)
      && OthersBookedDuring(room, formStart.value, formEnd.value, allBookings, excludeBookingId, instant)
  {
    if formStart.None? || formEnd.None? || formStart.value == 0 || formEnd.value == 0
       || formEnd.value <= formStart.value then
      NewBooking.InvalidTime
    else
      var start, end := formStart.value, formEnd.value;
      var considered := (b: Booking) => Considered(b, room, excludeBookingId);
      var overlapping := (b: Booking) => NewBooking.ConflictsWith(b, start, end, instant);
      var hasConflict := Exists(Filter(allBookings, considered), overlapping);
      ExistsFiltered(allBookings, considered, overlapping);
      if hasConflict then NewBooking.Conflict else NewBooking.Available
  }

  /** Without a booking to leave out, the check is the new-booking check. */
  lemma NoExclusionIsNewCheck(room: Room, formStart: Option<int>, formEnd: Option<int>,
                              allBookings: seq<Booking>, instant: string -> Option<int>)
    ensures CheckAvailability(room, formStart, formEnd, allBookings, None, instant)
         == NewBooking.CheckAvailability(room, formStart, formEnd, allBookings, instant)
  {
    if NewBooking.ValidInterval(formStart, formEnd) {
      var s, e := formStart.value, formEnd.value;
      assert OthersBookedDuring(room, s, e, allBookings, None, instant)
         <==> NewBooking.RoomBookedDuring(room, s, e, allBookings, instant);
    }
  }

  /** The excluded booking never causes a conflict, wherever it lies. */
  lemma ExcludedNeverConflicts(room: Room, formStart: Option<int>, formEnd: Option<int>,
                               allBookings: seq<Booking>, b: Booking, instant: string -> Option<int>)
    ensures CheckAvailability(room, formStart, formEnd, allBookings + [b], Some(b.id), instant)
         == CheckAvailability(room, formStart, formEnd, allBookings, Some(b.id), instant)
  {
    var all' := allBookings + [b];
    if NewBooking.ValidInterval(formStart, formEnd) {
      var s, e := formStart.value, formEnd.value;
      assert forall i :: 0 <= i < |allBookings| ==> all'[i] == allBookings[i];
      assert !Considered(b, room, Some(b.id));
      assert OthersBookedDuring(room, s, e, all', Some(b.id), instant)
         <==> OthersBookedDuring(room, s, e, allBookings, Some(b.id), instant);
    }
  }

  /** No two stored bookings of the room with different ids overlap. */
  predicate ConsistentSchedule(room: Room, allBookings: seq<Booking>, instant: string -> Option<int>) {
    forall i, j ::
      (&& 0 <= i < |allBookings| && 0 <= j < |allBookings|
       && allBookings[i].resourceId == room.id && allBookings[j].resourceId == room.id
       && allBookings[i].id != allBookings[j].id
       && instant(allBookings[j].start).Some? && instant(allBookings[j].end).Some?)
      ==> !NewBooking.ConflictsWith(allBookings[i], instant(allBookings[j].start).value, instant(allBookings[j].end).value, instant)
  }

  /** Re-checking a booking of a consistent schedule against its own unchanged
      slot, leaving it out, finds the room available. */
  lemma OwnSlotAvailable(room: Room, allBookings: seq<Booking>, k: nat, instant: string -> Option<int>)
    requires k < |allBookings| && allBookings[k].resourceId == room.id
    requires ConsistentSchedule(room, allBookings, instant)
    requires NewBooking.ValidInterval(instant(allBookings[k].start), instant(allBookings[k].end))
    ensures CheckAvailability(room, instant(allBookings[k].start), instant(allBookings[k].end),
                              allBookings, Some(allBookings[k].id), instant) == NewBooking.Available
  {
    var b := allBookings[k];
    var s, e := instant(b.start).value, instant(b.end).value;
    forall i | 0 <= i < |allBookings| && Considered(allBookings[i], room, Some(b.id))
      ensures !NewBooking.ConflictsWith(allBookings[i], s, e, instant)
    {
    }
  }

  /** A card is enabled exactly when the interval is valid and no other booking
      of the room overlaps it. */
  lemma EnabledIffFree(room: Room, formStart: Option<int>, formEnd: Option<int>, allBookings: seq<Booking>,
                       excludeBookingId: Option<string>, instant: string -> Option<int>)
    ensures !NewBooking.IsDisabled(CheckAvailability(room, formStart, formEnd, allBookings, excludeBookingId, instant)) <==>
      && NewBooking.ValidInterval(formStart, formEnd)
      && !OthersBookedDuring(room, formStart.value, formEnd.value, allBookings, excludeBookingId, instant)
  {
  }

  // ---------------------------------------------------------------------------
  // The form action

  /** The object handed to `updateBooking`: exactly these five fields, so a
      booking's id, resource type and status are not part of it. */
  datatype BookingEdit = BookingEdit(title: string, resourceId: string, start: string, end: string, notes: Option<string>)

  /** `action`: the payload for `updateBooking`, or why there is none. It checks
      the form as the new-booking action does and carries the same fields, less
      the resource type. */
  function EditPayload(form: NewBooking.BookingForm): (r: Result<BookingEdit, NewBooking.Outcome>)
    ensures r.Failure? <==> NewBooking.NewBookingData(form).Failure?
    ensures r.Failure? ==> r.error == NewBooking.NewBookingData(form).error
    ensures r.Success? ==>
      var d := NewBooking.NewBookingData(form).value;
      r.value == BookingEdit(d.title, d.resourceId, d.start, d.end, d.notes)
  {
    if !Truthy(form.resourceId) then Failure(NewBooking.ValidationError(NewBooking.ChooseRoomMessage))
    else if form.start.None? || form.end.None? then Failure(NewBooking.Thrown(NewBooking.InvalidDateMessage))
    else Success(BookingEdit(form.eventName, form.resourceId.value, form.start.value, form.end.value, form.notes))
  }
}
