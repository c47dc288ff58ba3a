/** The record store and the repository on top of it (app/src/data.ts): rooms,
    assets and bookings kept as whole collections under a key, every change
    made by loading a collection, changing it and saving it back whole. */
module Data {
  import opened Wrappers
  import opened Seqs
  import opened Sorting
  import opened Text

  // ---------------------------------------------------------------------------
  // Records

  /** A room. `location` is not declared on the source's type; the catalog and
      the booking editor read it, so it is optional here. */
  datatype Room = Room(id: string, name: string, capacity: int, features: seq<string>, location: Option<string>)

  datatype AssetStatus = AssetAvailable | AssetUnavailable | AssetMaintenance

  datatype Asset = Asset(id: string, name: string, inventoryCode: string, status: AssetStatus)

  datatype ResourceType = RoomResource | AssetResource

  /** A booking. `start` and `end` are ISO 8601 strings. `status` is not declared
      on the source's type; the dashboard reads it, so it is optional here. */
  datatype Booking = Booking(
    id: string, resourceType: ResourceType, resourceId: string, title: string,
    start: string, end: string, notes: Option<string>, status: Option<string>)

  /** `Omit<Booking, 'id'>`, what a new booking is created from. */
  datatype BookingData = BookingData(
    resourceType: ResourceType, resourceId: string, title: string,
    start: string, end: string, notes: Option<string>)

  /** `Partial<Room>`: the fields an update sets; `None` leaves a field alone. */
  datatype RoomPatch = RoomPatch(
    id: Option<string>, name: Option<string>, capacity: Option<int>,
    features: Option<seq<string>>, location: Option<string>)

  const NoUpdates := RoomPatch(None, None, None, None, None)

  /** `{rooms, assets, bookings}`, the seed file and the import/export document;
      a missing key is `None`. */
  datatype Snapshot = Snapshot(rooms: Option<seq<Room>>, assets: Option<seq<Asset>>, bookings: Option<seq<Booking>>)

  /** One element of a stored collection. */
  datatype Record = RoomRecord(room: Room) | AssetRecord(asset: Asset) | BookingRecord(booking: Booking)

  const RoomsKey := "rooms"
  const AssetsKey := "assets"
  const BookingsKey := "bookings"

  const NewRoomName := "Новая аудитория"

  /** A query or resource id is used only when it is truthy: present and not empty. */
  predicate Truthy(s: Option<string>) {
    s.Some? && s.value != ""
  }

  /** `Object.assign(room, updates)`: the fields present in `updates` overwrite, the others stay. */
  function Assign(room: Room, updates: RoomPatch): (r: Room)
    ensures updates.id.Some? ==> r.id == updates.id.value
    ensures updates.id.None? ==> r.id == room.id
    ensures updates.name.Some? ==> r.name == updates.name.value
    ensures updates.name.None? ==> r.name == room.name
    ensures updates.capacity.Some? ==> r.capacity == updates.capacity.value
    ensures updates.capacity.None? ==> r.capacity == room.capacity
    ensures updates.features.Some? ==> r.features == updates.features.value
    ensures updates.features.None? ==> r.features == room.features
    ensures updates.location.Some? ==> r.location == updates.location
    ensures updates.location.None? ==> r.location == room.location
  {
    Room(
      if updates.id.Some? then updates.id.value else room.id,
      if updates.name.Some? then updates.name.value else room.name,
      if updates.capacity.Some? then updates.capacity.value else room.capacity,
      if updates.features.Some? then updates.features.value else room.features,
      if updates.location.Some? then updates.location else room.location)
  }

  /** An empty update changes nothing. */
  lemma AssignNothing(room: Room)
    ensures Assign(room, NoUpdates) == room
  {
  }

  /** Applying the same update twice is applying it once. */
  lemma AssignIdempotent(room: Room, updates: RoomPatch)
    ensures Assign(Assign(room, updates), updates) == Assign(room, updates)
  {
  }

  /** `{ id, ...bookingData }` */
  function WithId(id: string, data: BookingData): (b: Booking)
    ensures b.id == id && b.status == None
    ensures b.resourceType == data.resourceType && b.resourceId == data.resourceId
    ensures b.title == data.title && b.start == data.start && b.end == data.end && b.notes == data.notes
  {
    Booking(id, data.resourceType, data.resourceId, data.title, data.start, data.end, data.notes, None)
  }

  // ---------------------------------------------------------------------------
  // Collections of records and their typed views

  predicate AllRooms(rs: seq<Record>) {
    forall i :: 0 <= i < |rs| ==> rs[i].RoomRecord?
  }

  predicate AllAssets(rs: seq<Record>) {
    forall i :: 0 <= i < |rs| ==> rs[i].AssetRecord?
  }

  predicate AllBookings(rs: seq<Record>) {
    forall i :: 0 <= i < |rs| ==> rs[i].BookingRecord?
  }

  function RoomRecords(rooms: seq<Room>): (rs: seq<Record>)
    ensures AllRooms(rs) && |rs| == |rooms|
  {
    seq(|rooms|, i requires 0 <= i < |rooms| => RoomRecord(rooms[i]))
  }

  function AssetRecords(assets: seq<Asset>): (rs: seq<Record>)
    ensures AllAssets(rs) && |rs| == |assets|
  {
    seq(|assets|, i requires 0 <= i < |assets| => AssetRecord(assets[i]))
  }

  function BookingRecords(bookings: seq<Booking>): (rs: seq<Record>)
    ensures AllBookings(rs) && |rs| == |bookings|
  {
    seq(|bookings|, i requires 0 <= i < |bookings| => BookingRecord(bookings[i]))
  }

  function RoomsIn(rs: seq<Record>): (rooms: seq<Room>)
    requires AllRooms(rs)
    ensures RoomRecords(rooms) == rs
  {
    seq(|rs|, i requires 0 <= i < |rs| => rs[i].room)
  }

  function BookingsIn(rs: seq<Record>): (bookings: seq<Booking>)
    requires AllBookings(rs)
    ensures BookingRecords(bookings) == rs
  {
    seq(|rs|, i requires 0 <= i < |rs| => rs[i].booking)
  }

  lemma RoomsRoundTrip(rooms: seq<Room>)
    ensures RoomsIn(RoomRecords(rooms)) == rooms
  {
  }

  lemma BookingsRoundTrip(bookings: seq<Booking>)
    ensures BookingsIn(BookingRecords(bookings)) == bookings
  {
  }

  // ---------------------------------------------------------------------------
  // The key-value store

  /** `getItems(key)`: a key that was never written reads as the empty collection. */
  function LoadFrom(m: map<string, seq<Record>>, key: string): (items: seq<Record>)
    ensures key !in m ==> items == []
    ensures key in m ==> items == m[key]
  {
    if key in m then m[key] else []
  }

  /** Each of the three collections holds records of its own kind. */
  predicate Shaped(m: map<string, seq<Record>>) {
    && AllRooms(LoadFrom(m, RoomsKey))
    && AllAssets(LoadFrom(m, AssetsKey))
    && AllBookings(LoadFrom(m, BookingsKey))
  }

  /** Writing `items` under `key` keeps the store shaped. */
  predicate Fits(key: string, items: seq<Record>) {
    && (key == RoomsKey ==> AllRooms(items))
    && (key == AssetsKey ==> AllAssets(items))
    && (key == BookingsKey ==> AllBookings(items))
  }

  // ---------------------------------------------------------------------------
  // Lookups and orderings

  /** `rooms.findIndex(room => room.id === id)`, `None` for -1: the first match. */
  function FindRoomIndex(rooms: seq<Room>, id: string): (r: Option<nat>)
    ensures r.Some? ==> r.value < |rooms| && rooms[r.value].id == id
    ensures r.Some? ==> forall j :: 0 <= j < r.value ==> rooms[j].id != id
    ensures r.None? <==> forall j :: 0 <= j < |rooms| ==> rooms[j].id != id
  {
    if rooms == [] then None
    else if rooms[0].id == id then Some(0)
    else
      match FindRoomIndex(rooms[1..], id)
      case None => None
      case Some(k) => Some(k + 1)
  }

  /** `rooms.find(room => room.id === id) ?? null` */
  function FindRoom(rooms: seq<Room>, id: string): (r: Option<Room>)
    ensures r.None? <==> forall j :: 0 <= j < |rooms| ==> rooms[j].id != id
    ensures r.Some? ==> r.value.id == id && r.value in rooms
    ensures r.Some? ==> exists i :: 0 <= i < |rooms| && rooms[i] == r.value && forall j :: 0 <= j < i ==> rooms[j].id != id
  {
    match FindRoomIndex(rooms, id)
    case None => None
    case Some(i) => Some(rooms[i])
  }

  /** `sortBy("name")` compares rooms by name. */
  predicate NameLe(a: Room, b: Room) {
    StrLe(a.name, b.name)
  }

  /** `sortBy("start")` compares bookings by their start string. */
  predicate StartLe(a: Booking, b: Booking) {
    StrLe(a.start, b.start)
  }

  lemma NameOrder()
    ensures TotalPreorder(NameLe)
  {
    forall a: Room, b: Room ensures NameLe(a, b) || NameLe(b, a) {
      StrLeTotal(a.name, b.name);
    }
    forall a: Room, b: Room, c: Room | NameLe(a, b) && NameLe(b, c) ensures NameLe(a, c) {
      StrLeTransitive(a.name, b.name, c.name);
    }
  }

  lemma StartOrder()
    ensures TotalPreorder(StartLe)
  {
    forall a: Booking, b: Booking ensures StartLe(a, b) || StartLe(b, a) {
      StrLeTotal(a.start, b.start);
    }
    forall a: Booking, b: Booking, c: Booking | StartLe(a, b) && StartLe(b, c) ensures StartLe(a, c) {
      StrLeTransitive(a.start, b.start, c.start);
    }
  }

  /** `rooms.sort(sortBy("name"))`: ascending by name, a permutation. */
  function SortedRooms(rooms: seq<Room>): (r: seq<Room>)
    ensures Sorted(r, NameLe) && multiset(r) == multiset(rooms) && |r| == |rooms|
  {
    NameOrder();
    SortBy(rooms, NameLe)
  }

  /** `bookings.sort(sortBy("start"))`: ascending by start, a permutation. */
  function SortedBookings(bookings: seq<Booking>): (r: seq<Booking>)
    ensures Sorted(r, StartLe) && multiset(r) == multiset(bookings) && |r| == |bookings|
  {
    StartOrder();
    SortBy(bookings, StartLe)
  }

  /** The sort is stable: rooms named alike keep their relative order. */
  lemma SortedRoomsStable(rooms: seq<Room>, c: Room)
    ensures Filter(SortedRooms(rooms), (room: Room) => room.name == c.name)
         == Filter(rooms, (room: Room) => room.name == c.name)
  {
    var tied := (room: Room) => room.name == c.name;
    NameOrder();
    forall z: Room ensures tied(z) <==> NameLe(z, c) && NameLe(c, z) {
      StrLeTotal(z.name, c.name);
      if NameLe(z, c) && NameLe(c, z) {
        StrLeAntisymmetric(z.name, c.name);
      }
    }
    SortByStable(rooms, NameLe, c, tied);
  }

  /** The sort is stable: bookings starting at the same string keep their relative order. */
  lemma SortedBookingsStable(bookings: seq<Booking>, c: Booking)
    ensures Filter(SortedBookings(bookings), (b: Booking) => b.start == c.start)
         == Filter(bookings, (b: Booking) => b.start == c.start)
  {
    var tied := (b: Booking) => b.start == c.start;
    StartOrder();
    forall z: Booking ensures tied(z) <==> StartLe(z, c) && StartLe(c, z) {
      StrLeTotal(z.start, c.start);
      if StartLe(z, c) && StartLe(c, z) {
        StrLeAntisymmetric(z.start, c.start);
      }
    }
    SortByStable(bookings, StartLe, c, tied);
  }

  /** `bookings.filter(b => b.resourceId === resourceId)`, with multiplicities. */
  function ForResource(bookings: seq<Booking>, resourceId: string): (r: seq<Booking>)
    ensures forall b :: multiset(r)[b] == if b.resourceId == resourceId then multiset(bookings)[b] else 0
    ensures forall i :: 0 <= i < |r| ==> r[i].resourceId == resourceId
  {
    Filter(bookings, (b: Booking) => b.resourceId == resourceId)
  }

  // ---------------------------------------------------------------------------
  // Seeding

  /** The store after `seedData` with the fetched file (`None` when fetching
      or parsing failed): a collection is written only when it was empty when
      read and the file supplies it. */
  function Seeded(m: map<string, seq<Record>>, seed: Option<Snapshot>): map<string, seq<Record>> {
    match seed
    case None => m
    case Some(data) =>
      var m1 := if |LoadFrom(m, RoomsKey)| == 0 && data.rooms.Some?
                then m[RoomsKey := RoomRecords(data.rooms.value)] else m;
      var m2 := if |LoadFrom(m, AssetsKey)| == 0 && data.assets.Some?
                then m1[AssetsKey := AssetRecords(data.assets.value)] else m1;
      if |LoadFrom(m, BookingsKey)| == 0 && data.bookings.Some?
      then m2[BookingsKey := BookingRecords(data.bookings.value)] else m2
  }

  /** Seeding touches only the three collections, and only those that were empty. */
  lemma SeedOnlyFillsEmpty(m: map<string, seq<Record>>, seed: Option<Snapshot>, key: string)
    requires key !in {RoomsKey, AssetsKey, BookingsKey} || |LoadFrom(m, key)| > 0
    ensures key in Seeded(m, seed) <==> key in m
    ensures LoadFrom(Seeded(m, seed), key) == LoadFrom(m, key)
  {
  }

  /** A second seeding with the same file after the first changes nothing. */
  lemma SeedIdempotent(m: map<string, seq<Record>>, seed: Option<Snapshot>)
    ensures Seeded(Seeded(m, seed), seed) == Seeded(m, seed)
  {
  }

  /** Seeding keeps every collection of its own kind. */
  lemma SeedShaped(m: map<string, seq<Record>>, seed: Option<Snapshot>)
    requires Shaped(m)
    ensures Shaped(Seeded(m, seed))
  {
  }

  // ---------------------------------------------------------------------------
  // The store object

  /** The persistent map from collection name to collection. */
  class Store {
    var collections: map<string, seq<Record>>

    ghost predicate Valid()
      reads this
    {
      Shaped(collections)
    }

    constructor ()
      ensures Valid() && collections == map[]
    {
      collections := map[];
    }

    function Load(key: string): seq<Record>
      reads this
    {
      LoadFrom(collections, key)
    }

    function Rooms(): seq<Room>
      reads this
      requires Valid()
    {
      RoomsIn(Load(RoomsKey))
    }

    function Bookings(): seq<Booking>
      reads this
      requires Valid()
    {
      BookingsIn(Load(BookingsKey))
    }

    /** `getItems(key)`: the stored collection, empty when the key was never written. */
    method GetItems(key: string) returns (items: seq<Record>)
      ensures key !in collections ==> items == []
      ensures key in collections ==> items == collections[key]
    {
      if key in collections {
        items := collections[key];
      } else {
        items := [];
      }
    }

    /** `setItems(key, items)`: overwrites the whole collection and returns what was written. */
    method SetItems(key: string, items: seq<Record>) returns (written: seq<Record>)
      requires Valid() && Fits(key, items)
      modifies this
      ensures Valid()
      ensures collections == old(collections)[key := items]
      ensures Load(key) == items && written == items
    {
      collections := collections[key := items];
      written := items;
    }

    /** `getRooms(query)`: the rooms matching a truthy query (all rooms otherwise),
        sorted by name. `matches` is the fuzzy matcher's verdict for the query. */
    method GetRooms(query: Option<string>, matches: Room -> bool) returns (rooms: seq<Room>)
      requires Valid()
      ensures rooms == SortedRooms(if Truthy(query) then Filter(Rooms(), matches) else Rooms())
      ensures Sorted(rooms, NameLe)
      ensures !Truthy(query) ==> multiset(rooms) == multiset(Rooms())
      ensures Truthy(query) ==> forall r :: multiset(rooms)[r] == if matches(r) then multiset(Rooms())[r] else 0
    {
      var items := GetItems(RoomsKey);
      rooms := RoomsIn(items);
      if Truthy(query) {
        rooms := Filter(rooms, matches);
      }
      rooms := SortedRooms(rooms);
    }

    /** `createRoom()`: a placeholder room with a fresh `r-` id, saved in front of
        the previous rooms sorted by name. `suffix` stands for the random part. */
    method CreateRoom(suffix: string) returns (room: Room)
      requires Valid()
      modifies this
      ensures Valid()
      ensures room == Room("r-" + suffix, NewRoomName, 0, [], None)
      ensures Rooms() == [room] + SortedRooms(old(Rooms()))
      ensures collections == old(collections)[RoomsKey := RoomRecords(Rooms())]
      ensures |Rooms()| == |old(Rooms())| + 1
      ensures FindRoom(Rooms(), room.id) == Some(room)
    {
      room := Room("r-" + suffix, NewRoomName, 0, [], None);
      var rooms := GetRooms(None, _ => true);
      rooms := [room] + rooms;
      var _ := SetItems(RoomsKey, RoomRecords(rooms));
      RoomsRoundTrip(rooms);
    }

    /** `getRoom(id)`: the first room with that id, or `null`. */
    method GetRoom(id: string) returns (room: Option<Room>)
      requires Valid()
      ensures room == FindRoom(Rooms(), id)
      ensures room.Some? ==> room.value in Rooms() && room.value.id == id
      ensures room.None? <==> forall r :: r in Rooms() ==> r.id != id
    {
      var items := GetItems(RoomsKey);
      room := FindRoom(RoomsIn(items), id);
    }

    /** `updateRoom(id, updates)`: merges `updates` into the first room with that
        id and saves; throws, writing nothing, when there is none. */
    method UpdateRoom(id: string, updates: RoomPatch) returns (result: Result<Room, string>)
      requires Valid()
      modifies this
      ensures Valid()
      ensures FindRoomIndex(old(Rooms()), id).None? ==>
        result == Failure("No room with id: " + id) && collections == old(collections)
      ensures FindRoomIndex(old(Rooms()), id).Some? ==>
        var i := FindRoomIndex(old(Rooms()), id).value;
        && Rooms() == old(Rooms())[i := Assign(old(Rooms())[i], updates)]
        && result == Success(Rooms()[i])
        && collections == old(collections)[RoomsKey := RoomRecords(Rooms())]
      ensures updates == NoUpdates ==> collections == old(collections)
    {
      var items := GetItems(RoomsKey);
      var rooms := RoomsIn(items);
      var index := FindRoomIndex(rooms, id);
      if index.None? {
        return Failure("No room with id: " + id);
      }
      var i := index.value;
      rooms := rooms[i := Assign(rooms[i], updates)];
      var _ := SetItems(RoomsKey, RoomRecords(rooms));
      RoomsRoundTrip(rooms);
      result := Success(rooms[i]);
      if updates == NoUpdates {
        AssignNothing(old(Rooms())[i]);
        assert rooms == old(Rooms());
        assert RoomsKey in old(collections);
      }
    }

    /** `deleteRoom(id)`: removes the first room with that id and reports whether
        there was one; nothing is written when there is none. */
    method DeleteRoom(id: string) returns (deleted: bool)
      requires Valid()
      modifies this
      ensures Valid()
      ensures deleted <==> FindRoomIndex(old(Rooms()), id).Some?
      ensures !deleted ==> collections == old(collections)
      ensures deleted ==>
        var i := FindRoomIndex(old(Rooms()), id).value;
        && Rooms() == old(Rooms())[..i] + old(Rooms())[i + 1..]
        && collections == old(collections)[RoomsKey := RoomRecords(Rooms())]
      ensures deleted ==> |Rooms()| == |old(Rooms())| - 1
    {
      var items := GetItems(RoomsKey);
      var rooms := RoomsIn(items);
      var index := FindRoomIndex(rooms, id);
      if index.Some? {
        var i := index.value;
        rooms := rooms[..i] + rooms[i + 1..];
        var _ := SetItems(RoomsKey, RoomRecords(rooms));
        RoomsRoundTrip(rooms);
        return true;
      }
      return false;
    }

    /** `getBookings(resourceId)`: the bookings of a truthy resource id (all
        bookings otherwise), sorted by start. */
    method GetBookings(resourceId: Option<string>) returns (bookings: seq<Booking>)
      requires Valid()
      ensures bookings == SortedBookings(if Truthy(resourceId) then ForResource(Bookings(), resourceId.value) else Bookings())
      ensures Sorted(bookings, StartLe)
      ensures !Truthy(resourceId) ==> multiset(bookings) == multiset(Bookings())
      ensures Truthy(resourceId) ==>
        forall b :: multiset(bookings)[b] == if b.resourceId == resourceId.value then multiset(Bookings())[b] else 0
    {
      var items := GetItems(BookingsKey);
      bookings := BookingsIn(items);
      if Truthy(resourceId) {
        bookings := ForResource(bookings, resourceId.value);
      }
      bookings := SortedBookings(bookings);
    }

    /** `createBooking(data)`: the data with a fresh `b-` id, saved in front of the
        previous bookings sorted by start. `suffix` stands for the random part. */
    method CreateBooking(data: BookingData, suffix: string) returns (booking: Booking)
      requires Valid()
      modifies this
      ensures Valid()
      ensures booking == WithId("b-" + suffix, data)
      ensures Bookings() == [booking] + SortedBookings(old(Bookings()))
      ensures collections == old(collections)[BookingsKey := BookingRecords(Bookings())]
    {
      booking := WithId("b-" + suffix, data);
      var bookings := GetBookings(None);
      bookings := [booking] + bookings;
      var _ := SetItems(BookingsKey, BookingRecords(bookings));
      BookingsRoundTrip(bookings);
    }

    /** `seedData()`: `seed` is the fetched example file, `None` when fetching or
        parsing failed (the error is logged and swallowed). */
    method SeedData(seed: Option<Snapshot>)
      requires Valid()
      modifies this
      ensures Valid()
      ensures collections == Seeded(old(collections), seed)
    {
      if seed.None? {
        return;
      }
      var data := seed.value;
      var rooms := GetItems(RoomsKey);
      var assets := GetItems(AssetsKey);
      var bookings := GetItems(BookingsKey);
      if |rooms| == 0 && data.rooms.Some? {
        var _ := SetItems(RoomsKey, RoomRecords(data.rooms.value));
      }
      if |assets| == 0 && data.assets.Some? {
        var _ := SetItems(AssetsKey, AssetRecords(data.assets.value));
      }
      if |bookings| == 0 && data.bookings.Some? {
        var _ := SetItems(BookingsKey, BookingRecords(data.bookings.value));
      }
    }
  }
}
