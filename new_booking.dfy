/** The new-booking page (app/src/routes/new-booking.tsx): the availability
    check of a room for a time interval, the room filter, the feature checklist
    and the form action that creates a booking. */
module NewBooking {
  import opened Wrappers
  import opened Seqs
  import opened Text
  import opened Data

  /** The availability of a room, with the text shown on its card. */
  datatype Status = InvalidTime | Conflict | Available

  function StatusText(s: Status): (text: string)
    ensures s == InvalidTime ==> text == "Неверное время"
    ensures s == Conflict ==> text == "Занята в это время"
    ensures s == Available ==> text == "Свободна"
  {
    match s
    case InvalidTime => "Неверное время"
    case Conflict => "Занята в это время"
    case Available => "Свободна"
  }

  /** Each status shows its own text, so a card's text tells its status. */
  lemma StatusTextsDistinct(s: Status, t: Status)
    requires s != t
    ensures StatusText(s) != StatusText(t)
  {
  }

  /** The form interval passes `!start.valueOf() || !end.valueOf() || end <= start`:
      both instants parse, neither is the epoch (0 is falsy), and end is after start. */
  predicate ValidInterval(formStart: Option<int>, formEnd: Option<int>) {
    formStart.Some? && formEnd.Some? && formStart.value != 0 && formEnd.value != 0
    && formStart.value < formEnd.value
  }

  /** Two intervals overlap when each starts before the other ends; touching
      intervals do not. */
  predicate Overlaps(aStart: int, aEnd: int, bStart: int, bEnd: int) {
    aStart < bEnd && aEnd > bStart
  }

  /** The interval overlaps the booking's. A booking whose start or end does
      not parse compares false (NaN) and so never overlaps. */
  predicate ConflictsWith(b: Booking, formStart: int, formEnd: int, instant: string -> Option<int>) {
    match (instant(b.start), instant(b.end))
    case (Some(bStart), Some(bEnd)) => Overlaps(formStart, formEnd, bStart, bEnd)
    case _ => false
  }

  /** Some booking of the room overlaps the interval. */
  predicate RoomBookedDuring(room: Room, formStart: int, formEnd: int, allBookings: seq<Booking>,
                             instant: string -> Option<int>) {
    exists i :: 0 <= i < |allBookings| && allBookings[i].resourceId == room.id
      && ConflictsWith(allBookings[i], formStart, formEnd, instant)
  }

  /** `checkAvailability(room, formStart, formEnd, allBookings)`. `instant` is
      `new Date(s)` on a stored ISO string, `None` for an Invalid Date. */
  function CheckAvailability(room: Room, formStart: Option<int>, formEnd: Option<int>,
                             allBookings: seq<Booking>, instant: string -> Option<int>): (r: Status)
    ensures r == InvalidTime <==> !ValidInterval(formStart, formEnd)
    ensures r == Conflict <==>
      ValidInterval(formStart, formEnd) && RoomBookedDuring(room, formStart.value, formEnd.value, allBookings, instant)
  {
    if formStart.None? || formEnd.None? || formStart.value == 0 || formEnd.value == 0
       || formEnd.value <= formStart.value then
      InvalidTime
    else
      var start, end := formStart.value, formEnd.value;
      var forRoom := (b: Booking) => b.resourceId == room.id;
      var overlapping := (b: Booking) => ConflictsWith(b, start, end, instant);
      var hasConflict := Exists(Filter(allBookings, forRoom), overlapping);
      ExistsFiltered(allBookings, forRoom, overlapping);
      if hasConflict then Conflict else Available
  }

  /** The overlap test is symmetric in the two intervals. */
  lemma OverlapSymmetric(aStart: int, aEnd: int, bStart: int, bEnd: int)
    ensures Overlaps(aStart, aEnd, bStart, bEnd) == Overlaps(bStart, bEnd, aStart, aEnd)
  {
  }

  /** With a valid interval and no booking on the room, the room is available. */
  lemma NoBookingsAvailable(room: Room, formStart: Option<int>, formEnd: Option<int>,
                            allBookings: seq<Booking>, instant: string -> Option<int>)
    requires ValidInterval(formStart, formEnd)
    requires forall i :: 0 <= i < |allBookings| ==> allBookings[i].resourceId != room.id
    ensures CheckAvailability(room, formStart, formEnd, allBookings, instant) == Available
  {
  }

  /** Back-to-back bookings are allowed: an interval that ends when a booking
      starts, or starts when it ends, does not conflict with it. */
  lemma BackToBackAvailable(room: Room, formStart: int, formEnd: int, b: Booking,
                            instant: string -> Option<int>)
    requires ValidInterval(Some(formStart), Some(formEnd))
    requires instant(b.start).Some? && instant(b.end).Some?
    requires formEnd == instant(b.start).value || formStart == instant(b.end).value
    ensures CheckAvailability(room, Some(formStart), Some(formEnd), [b], instant) == Available
  {
  }

  /** A booking of another room, or one whose start or end does not parse,
      never changes the answer. */
  lemma IrrelevantBooking(room: Room, formStart: Option<int>, formEnd: Option<int>,
                          allBookings: seq<Booking>, b: Booking, instant: string -> Option<int>)
    requires b.resourceId != room.id || instant(b.start).None? || instant(b.end).None?
    ensures CheckAvailability(room, formStart, formEnd, allBookings + [b], instant)
         == CheckAvailability(room, formStart, formEnd, allBookings, instant)
  {
    var all' := allBookings + [b];
    if ValidInterval(formStart, formEnd) {
      var s, e := formStart.value, formEnd.value;
      assert !(b.resourceId == room.id && ConflictsWith(b, s, e, instant));
      assert forall i :: 0 <= i < |allBookings| ==> all'[i] == allBookings[i];
      assert RoomBookedDuring(room, s, e, all', instant) <==> RoomBookedDuring(room, s, e, allBookings, instant);
    }
  }

  /** A room card is disabled when the room cannot be chosen for the interval. */
  predicate IsDisabled(s: Status) {
    s == InvalidTime || s == Conflict
  }

  /** A card is enabled exactly when the interval is valid and no booking of the
      room overlaps it. */
  lemma EnabledIffFree(room: Room, formStart: Option<int>, formEnd: Option<int>,
                       allBookings: seq<Booking>, instant: string -> Option<int>)
    ensures !IsDisabled(CheckAvailability(room, formStart, formEnd, allBookings, instant)) <==>
      && ValidInterval(formStart, formEnd)
      && (forall i :: 0 <= i < |allBookings| && allBookings[i].resourceId == room.id ==>
            !ConflictsWith(allBookings[i], formStart.value, formEnd.value, instant))
  {
  }

  // ---------------------------------------------------------------------------
  // Room filter and feature checklist

  /** What the filter lets through, stated as the page promises it: the capacity
      filter is ignored when it does not parse or is not positive, otherwise the
      room must seat at least that many; and the room has every selected feature. */
  predicate Admits(room: Room, capacityFilter: string, featuresFilter: seq<string>) {
    && (ParseIntPrefix(capacityFilter).None? || ParseIntPrefix(capacityFilter).value <= 0
        || room.capacity >= ParseIntPrefix(capacityFilter).value)
    && forall f :: f in featuresFilter ==> f in room.features
  }

  /** The test `filteredRooms` applies to one room, `capacity` being the parsed filter. */
  predicate PassesFilters(room: Room, capacity: Option<int>, featuresFilter: seq<string>) {
    && !(capacity.Some? && capacity.value > 0 && room.capacity < capacity.value)
    && !(|featuresFilter| > 0 && !Every(featuresFilter, (feature: string) => feature in room.features))
  }

  /** `filteredRooms`: the rooms admitted by the filters, in their order. */
  function FilterRooms(rooms: seq<Room>, capacityFilter: string, featuresFilter: seq<string>): (r: seq<Room>)
    ensures forall room ::
      multiset(r)[room] == if Admits(room, capacityFilter, featuresFilter) then multiset(rooms)[room] else 0
    ensures forall i :: 0 <= i < |r| ==> Admits(r[i], capacityFilter, featuresFilter)
  {
    var capacity := ParseIntPrefix(capacityFilter);
    var passes := (room: Room) => PassesFilters(room, capacity, featuresFilter);
    assert forall room :: passes(room) <==> Admits(room, capacityFilter, featuresFilter) by {
      forall room ensures passes(room) <==> Admits(room, capacityFilter, featuresFilter) {
        PassesIffAdmits(room, capacityFilter, featuresFilter);
      }
    }
    Filter(rooms, passes)
  }

  /** The source's test on one room is the filter's promise. */
  lemma PassesIffAdmits(room: Room, capacityFilter: string, featuresFilter: seq<string>)
    ensures PassesFilters(room, ParseIntPrefix(capacityFilter), featuresFilter)
        <==> Admits(room, capacityFilter, featuresFilter)
  {
  }

  /** The filter keeps the rooms' order: the rooms admitted from two lists in
      a row are those admitted from the first, then those from the second. */
  lemma FilterRoomsAppend(a: seq<Room>, b: seq<Room>, capacityFilter: string, featuresFilter: seq<string>)
    ensures FilterRooms(a + b, capacityFilter, featuresFilter)
         == FilterRooms(a, capacityFilter, featuresFilter) + FilterRooms(b, capacityFilter, featuresFilter)
  {
    var capacity := ParseIntPrefix(capacityFilter);
    FilterAppend(a, b, (room: Room) => PassesFilters(room, capacity, featuresFilter));
  }

  /** One room is listed exactly when the filters admit it. */
  lemma FilterRoomsSingle(room: Room, capacityFilter: string, featuresFilter: seq<string>)
    ensures FilterRooms([room], capacityFilter, featuresFilter)
         == if Admits(room, capacityFilter, featuresFilter) then [room] else []
  {
    var capacity := ParseIntPrefix(capacityFilter);
    FilterSingleton(room, (room: Room) => PassesFilters(room, capacity, featuresFilter));
  }

  /** With no feature selected, only the capacity test applies. */
  lemma NoFeaturesCapacityOnly(room: Room, capacityFilter: string)
    ensures Admits(room, capacityFilter, []) <==>
      (ParseIntPrefix(capacityFilter).None? || ParseIntPrefix(capacityFilter).value <= 0
       || room.capacity >= ParseIntPrefix(capacityFilter).value)
  {
  }

  /** `handleFeatureChange(feature)`: unticking removes every occurrence, ticking appends. */
  function HandleFeatureChange(prev: seq<string>, feature: string): (next: seq<string>)
    ensures feature in next <==> feature !in prev
    ensures forall g :: g != feature ==> multiset(next)[g] == multiset(prev)[g]
    ensures feature !in prev ==> next == prev + [feature]
  {
    if feature in prev then RemoveAll(prev, feature) else prev + [feature]
  }

  /** Ticking an unticked feature and unticking it again restores the list. */
  lemma FeatureChangeTwice(prev: seq<string>, feature: string)
    requires feature !in prev
    ensures HandleFeatureChange(HandleFeatureChange(prev, feature), feature) == prev
  {
    var next := prev + [feature];
    assert next[..|next| - 1] == prev;
    RemoveAbsent(prev, feature);
  }

  // ---------------------------------------------------------------------------
  // The form action

  /** The submitted form. `start` and `end` are the ISO strings of the composed
      date and time, `None` when the date is invalid (`toISOString` throws). */
  datatype BookingForm = BookingForm(
    eventName: string, resourceId: Option<string>, start: Option<string>, end: Option<string>,
    notes: Option<string>)

  /** What an action does: an inline error, a thrown error, or a redirect. */
  datatype Outcome = ValidationError(message: string) | Thrown(message: string) | Redirect(path: string)

  const ChooseRoomMessage := "Пожалуйста, выберите аудиторию."

  const InvalidDateMessage := "Invalid time value"

  /** The booking `action` creates from the form, or why it creates none. */
  function NewBookingData(form: BookingForm): (r: Result<BookingData, Outcome>)
    ensures !Truthy(form.resourceId) ==> r == Failure(ValidationError(ChooseRoomMessage))
    ensures Truthy(form.resourceId) && (form.start.None? || form.end.None?) ==> r == Failure(Thrown(InvalidDateMessage))
    ensures r.Success? <==> Truthy(form.resourceId) && form.start.Some? && form.end.Some?
    ensures r.Success? ==>
      && r.value.resourceType == RoomResource && r.value.resourceId == form.resourceId.value
      && r.value.title == form.eventName && r.value.notes == form.notes
      && r.value.start == form.start.value && r.value.end == form.end.value
  {
    if !Truthy(form.resourceId) then Failure(ValidationError(ChooseRoomMessage))
    else if form.start.None? || form.end.None? then Failure(Thrown(InvalidDateMessage))
    else Success(BookingData(RoomResource, form.resourceId.value, form.eventName, form.start.value, form.end.value, form.notes))
  }

  /** `action`: validates the form and creates the booking, then redirects to `/`.
      Without a room nothing is written. */
  method Action(store: Store, form: BookingForm, suffix: string) returns (outcome: Outcome)
    requires store.Valid()
    modifies store
    ensures store.Valid()
    ensures NewBookingData(form).Failure? ==>
      outcome == NewBookingData(form).error && store.collections == old(store.collections)
    ensures NewBookingData(form).Success? ==>
      outcome == Redirect("/") &&
      store.Bookings() == [WithId("b-" + suffix, NewBookingData(form).value)] + SortedBookings(old(store.Bookings())) &&
      store.collections == old(store.collections)[BookingsKey := BookingRecords(store.Bookings())]
  {
    var data := NewBookingData(form);
    if data.Failure? {
      return data.error;
    }
    var _ := store.CreateBooking(data.value, suffix);
    outcome := Redirect("/");
  }
}
