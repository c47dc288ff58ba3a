/** The room catalogue (app/src/routes/catalog.tsx): the mass update action,
    the equipment overview, the building layout, the feature filter toggle,
    the "booked now" statistics and the JSON import. */
module Catalog {
  import opened Wrappers
  import opened Seqs
  import opened Sorting
  import opened Text
  import opened Data

  // ---------------------------------------------------------------------------
  // Mass update

  /** One step of `actionMassUpdate`: the first room with the id, if any, takes
      the patch's fields. */
  function ApplyUpdate(rooms: seq<Room>, roomId: string, patch: RoomPatch): (r: seq<Room>)
    ensures |r| == |rooms|
    ensures FindRoomIndex(rooms, roomId).None? ==> r == rooms
    ensures forall j :: 0 <= j < |rooms| && Some(j) != FindRoomIndex(rooms, roomId) ==> r[j] == rooms[j]
    ensures FindRoomIndex(rooms, roomId).Some? ==>
      var i := FindRoomIndex(rooms, roomId).value;
      r[i] == Assign(rooms[i], patch)
  {
    match FindRoomIndex(rooms, roomId)
    case None => rooms
    case Some(i) => rooms[i := Assign(rooms[i], patch)]
  }

  /** The patches applied one after the other, in key order; a patch sees the
      rooms as the earlier patches left them. */
  function ApplyUpdates(rooms: seq<Room>, updates: seq<(string, RoomPatch)>): (r: seq<Room>)
    ensures |r| == |rooms|
  {
    if updates == [] then rooms
    else
      var last := updates[|updates| - 1];
      ApplyUpdate(ApplyUpdates(rooms, updates[..|updates| - 1]), last.0, last.1)
  }

  /** No patch renames a room. */
  predicate KeepsIds(updates: seq<(string, RoomPatch)>) {
    forall k :: 0 <= k < |updates| ==> updates[k].1.id.None?
  }

  /** No room id is a key twice. */
  predicate DistinctKeys(updates: seq<(string, RoomPatch)>) {
    forall k, l :: 0 <= k < l < |updates| ==> updates[k].0 != updates[l].0
  }

  lemma {:induction false} UpdatesKeepIds(rooms: seq<Room>, updates: seq<(string, RoomPatch)>)
    requires KeepsIds(updates)
    ensures forall j :: 0 <= j < |rooms| ==> ApplyUpdates(rooms, updates)[j].id == rooms[j].id
  {
    if updates != [] {
      UpdatesKeepIds(rooms, updates[..|updates| - 1]);
    }
  }

  /** Rooms with the same ids in the same places are found at the same index. */
  lemma {:induction false} SameIdsSameIndex(a: seq<Room>, b: seq<Room>, id: string)
    requires |a| == |b| && forall j :: 0 <= j < |a| ==> a[j].id == b[j].id
    ensures FindRoomIndex(a, id) == FindRoomIndex(b, id)
  {
    if a != [] && a[0].id != id {
      SameIdsSameIndex(a[1..], b[1..], id);
    }
  }

  /** When no patch renames a room, a room that is no key's first match is left
      as it was: one whose id is no key, and also a later room sharing a key's id. */
  lemma {:induction false} UnpatchedUnchanged(rooms: seq<Room>, updates: seq<(string, RoomPatch)>, j: nat)
    requires KeepsIds(updates) && j < |rooms|
    requires forall k :: 0 <= k < |updates| ==> FindRoomIndex(rooms, updates[k].0) != Some(j)
    ensures ApplyUpdates(rooms, updates)[j] == rooms[j]
  {
    if updates != [] {
      var n := |updates|;
      var init := updates[..n - 1];
      UnpatchedUnchanged(rooms, init, j);
      UpdatesKeepIds(rooms, init);
      SameIdsSameIndex(ApplyUpdates(rooms, init), rooms, updates[n - 1].0);
    }
  }

  /** When no patch renames a room and no id is a key twice, the first room with
      a key's id ends up merged with that key's patch. */
  lemma {:induction false} PatchedMerged(rooms: seq<Room>, updates: seq<(string, RoomPatch)>, k: nat, j: nat)
    requires KeepsIds(updates) && DistinctKeys(updates)
    requires k < |updates| && FindRoomIndex(rooms, updates[k].0) == Some(j)
    ensures ApplyUpdates(rooms, updates)[j] == Assign(rooms[j], updates[k].1)
  {
    var n := |updates|;
    var init := updates[..n - 1];
    var before := ApplyUpdates(rooms, init);
    UpdatesKeepIds(rooms, init);
    if k == n - 1 {
      SameIdsSameIndex(before, rooms, updates[k].0);
      UnpatchedUnchanged(rooms, init, j);
    } else {
      PatchedMerged(rooms, init, k, j);
      SameIdsSameIndex(before, rooms, updates[n - 1].0);
    }
  }

  /** One more patch applied. */
  lemma ApplyUpdatesStep(rooms: seq<Room>, updates: seq<(string, RoomPatch)>, n: nat)
    requires n < |updates|
    ensures ApplyUpdates(rooms, updates[..n + 1]) == ApplyUpdate(ApplyUpdates(rooms, updates[..n]), updates[n].0, updates[n].1)
  {
    assert updates[..n + 1][..n] == updates[..n];
  }

  /** `actionMassUpdate`: the patches are applied to the name-sorted rooms and the
      result replaces the stored rooms. */
  method MassUpdate(store: Store, updates: seq<(string, RoomPatch)>)
    requires store.Valid()
    modifies store
    ensures store.Valid()
    ensures store.Rooms() == ApplyUpdates(SortedRooms(old(store.Rooms())), updates)
    ensures store.collections == old(store.collections)[RoomsKey := RoomRecords(store.Rooms())]
  {
    var rooms := store.GetRooms(None, _ => true);
    ghost var sorted := rooms;
    assert sorted == SortedRooms(old(store.Rooms()));
    var n := 0;
    while n < |updates|
      invariant 0 <= n <= |updates|
      invariant rooms == ApplyUpdates(sorted, updates[..n])
      invariant store.collections == old(store.collections)
    {
      ApplyUpdatesStep(sorted, updates, n);
      var roomId, patch := updates[n].0, updates[n].1;
      var found := FindRoomIndex(rooms, roomId);
      if found.Some? {
        rooms := rooms[found.value := Assign(rooms[found.value], patch)];
      }
      n := n + 1;
    }
    assert updates[..n] == updates;
    RoomsRoundTrip(rooms);
    var _ := store.SetItems(RoomsKey, RoomRecords(rooms));
  }

  // ---------------------------------------------------------------------------
  // Equipment overview

  /** Every feature of every room, as a bag. */
  function FeatureBag(rooms: seq<Room>): multiset<string> {
    if rooms == [] then multiset{}
    else FeatureBag(rooms[..|rooms| - 1]) + multiset(rooms[|rooms| - 1].features)
  }

  /** The total number of feature entries over the rooms. */
  function TotalFeatures(rooms: seq<Room>): nat {
    if rooms == [] then 0 else TotalFeatures(rooms[..|rooms| - 1]) + |rooms[|rooms| - 1].features|
  }

  /** The bag holds each feature entry once. */
  lemma {:induction false} FeatureBagSize(rooms: seq<Room>)
    ensures |FeatureBag(rooms)| == TotalFeatures(rooms)
  {
    if rooms != [] {
      FeatureBagSize(rooms[..|rooms| - 1]);
    }
  }

  /** `counts` holds exactly the features of `bag`, each with its multiplicity. */
  ghost predicate Tallies(counts: map<string, nat>, bag: multiset<string>) {
    forall f :: (f in counts <==> bag[f] > 0) && (f in counts ==> counts[f] == bag[f])
  }

  /** Counting one more occurrence of a feature. */
  lemma TallyOne(counts: map<string, nat>, bag: multiset<string>, feature: string)
    requires Tallies(counts, bag)
    ensures Tallies(counts[feature := (if feature in counts then counts[feature] else 0) + 1], bag + multiset{feature})
  {
  }

  /** `room.features.forEach(...)` for one room: each of its features counted once more. */
  method TallyFeatures(counts: map<string, nat>, ghost bag: multiset<string>, features: seq<string>)
    returns (counts': map<string, nat>)
    requires Tallies(counts, bag)
    ensures Tallies(counts', bag + multiset(features))
  {
    counts' := counts;
    var j := 0;
    while j < |features|
      invariant 0 <= j <= |features|
      invariant Tallies(counts', bag + multiset(features[..j]))
    {
      var feature := features[j];
      assert features[..j + 1] == features[..j] + [feature];
      TallyOne(counts', bag + multiset(features[..j]), feature);
      var current := if feature in counts' then counts'[feature] else 0;
      counts' := counts'[feature := current + 1];
      j := j + 1;
    }
    assert features[..j] == features;
  }

  /** `equipmentOverview`: how many rooms list each feature (a room listing a
      feature twice counts twice). */
  method EquipmentOverview(rooms: seq<Room>) returns (counts: map<string, nat>)
    ensures Tallies(counts, FeatureBag(rooms))
  {
    counts := map[];
    var i := 0;
    while i < |rooms|
      invariant 0 <= i <= |rooms|
      invariant Tallies(counts, FeatureBag(rooms[..i]))
    {
      assert rooms[..i + 1][..i] == rooms[..i];
      counts := TallyFeatures(counts, FeatureBag(rooms[..i]), rooms[i].features);
      i := i + 1;
    }
    assert rooms[..i] == rooms;
  }

  // ---------------------------------------------------------------------------
  // Building layout

  /** The floor a room name denotes: its first run of digits divided by 100,
      rounded down; no floor when the name has no digit. */
  function FloorOf(name: string): (floor: Option<int>)
    ensures floor.None? <==> forall i :: 0 <= i < |name| ==> !IsDigit(name[i])
    ensures floor.Some? ==> floor.value >= 0
  {
    match FirstDigitRun(name)
    case None => None
    case Some(digits) => Some(DigitsValue(digits) / 100)
  }

  /** A name made of a digit-free prefix, a digit run and a tail not starting
      with a digit is on the floor that run denotes, hundreds being the floor. */
  lemma FloorOfName(p: string, ds: string, tail: string)
    requires forall i :: 0 <= i < |p| ==> !IsDigit(p[i])
    requires ds != [] && AllDigits(ds)
    requires tail == [] || !IsDigit(tail[0])
    ensures FloorOf(p + ds + tail) == Some(DigitsValue(ds) / 100)
  {
    FirstDigitRunOf(p, ds, tail);
  }

  /** The rooms on a floor, in catalogue order. */
  function RoomsOnFloor(rooms: seq<Room>, floor: int): seq<Room> {
    if rooms == [] then []
    else
      var last := rooms[|rooms| - 1];
      RoomsOnFloor(rooms[..|rooms| - 1], floor) + (if FloorOf(last.name) == Some(floor) then [last] else [])
  }

  /** A floor's rows hold each room on that floor as often as the catalogue does, and no other room. */
  lemma {:induction false} RoomsOnFloorCount(rooms: seq<Room>, floor: int, room: Room)
    ensures multiset(RoomsOnFloor(rooms, floor))[room]
         == if FloorOf(room.name) == Some(floor) then multiset(rooms)[room] else 0
  {
    if rooms != [] {
      var last := rooms[|rooms| - 1];
      assert rooms == rooms[..|rooms| - 1] + [last];
      RoomsOnFloorCount(rooms[..|rooms| - 1], floor, room);
    }
  }

  /** Adding one room to the catalogue prefix adds it to its own floor only. */
  lemma RoomsOnFloorAt(rooms: seq<Room>, i: nat, f: int)
    requires i < |rooms|
    ensures RoomsOnFloor(rooms[..i + 1], f)
         == RoomsOnFloor(rooms[..i], f) + (if FloorOf(rooms[i].name) == Some(f) then [rooms[i]] else [])
  {
    assert rooms[..i + 1][..i] == rooms[..i];
  }

  /** `groups` maps each floor in `floors` (each once) to its rooms among `prefix`,
      and every floor above the ground that a room of `prefix` is on is there. */
  ghost predicate Grouped(prefix: seq<Room>, groups: map<int, seq<Room>>, floors: seq<int>) {
    && Distinct(floors)
    && (forall f :: f in groups <==> f in floors)
    && (forall f :: f in groups ==> f > 0 && groups[f] == RoomsOnFloor(prefix, f) && groups[f] != [])
    && (forall f :: f > 0 && RoomsOnFloor(prefix, f) != [] ==> f in groups)
  }

  /** A room without a floor above the ground leaves the grouping as it is. */
  lemma GroupedSkip(rooms: seq<Room>, i: nat, groups: map<int, seq<Room>>, floors: seq<int>)
    requires i < |rooms| && Grouped(rooms[..i], groups, floors)
    requires FloorOf(rooms[i].name).None? || FloorOf(rooms[i].name).value <= 0
    ensures Grouped(rooms[..i + 1], groups, floors)
  {
    forall f | f in groups ensures groups[f] == RoomsOnFloor(rooms[..i + 1], f) {
      RoomsOnFloorAt(rooms, i, f);
    }
    forall f | f > 0 && RoomsOnFloor(rooms[..i + 1], f) != [] ensures f in groups {
      RoomsOnFloorAt(rooms, i, f);
    }
  }

  /** A room on a floor that already has a row joins the end of that row. */
  lemma GroupedExtend(rooms: seq<Room>, i: nat, groups: map<int, seq<Room>>, floors: seq<int>, floor: int)
    requires i < |rooms| && Grouped(rooms[..i], groups, floors)
    requires FloorOf(rooms[i].name) == Some(floor) && floor in groups
    ensures Grouped(rooms[..i + 1], groups[floor := groups[floor] + [rooms[i]]], floors)
  {
    var groups' := groups[floor := groups[floor] + [rooms[i]]];
    forall f | f in groups' ensures f > 0 && groups'[f] == RoomsOnFloor(rooms[..i + 1], f) && groups'[f] != [] {
      RoomsOnFloorAt(rooms, i, f);
    }
    forall f | f > 0 && RoomsOnFloor(rooms[..i + 1], f) != [] ensures f in groups' {
      RoomsOnFloorAt(rooms, i, f);
    }
  }

  /** A room on a floor above the ground that has no row yet opens that floor's
      row, and the floor is listed last. */
  lemma GroupedOpen(rooms: seq<Room>, i: nat, groups: map<int, seq<Room>>, floors: seq<int>, floor: int)
    requires i < |rooms| && Grouped(rooms[..i], groups, floors)
    requires FloorOf(rooms[i].name) == Some(floor) && floor > 0 && floor !in groups
    ensures Grouped(rooms[..i + 1], groups[floor := [rooms[i]]], floors + [floor])
  {
    var groups', floors' := groups[floor := [rooms[i]]], floors + [floor];
    assert floor !in floors;
    forall a, b | 0 <= a < b < |floors'| ensures floors'[a] != floors'[b] {
      assert floors'[a] == floors[a];
      if b < |floors| {
        assert floors'[b] == floors[b];
      }
    }
    forall f | f in groups' ensures f > 0 && groups'[f] == RoomsOnFloor(rooms[..i + 1], f) && groups'[f] != [] {
      RoomsOnFloorAt(rooms, i, f);
      if f == floor {
        assert RoomsOnFloor(rooms[..i], f) == [];
      }
    }
    forall f | f > 0 && RoomsOnFloor(rooms[..i + 1], f) != [] ensures f in groups' {
      RoomsOnFloorAt(rooms, i, f);
    }
  }

  /** Every room on a floor above the ground has its floor listed. */
  lemma GroupedCoversRooms(rooms: seq<Room>, groups: map<int, seq<Room>>, floors: seq<int>)
    requires Grouped(rooms, groups, floors)
    ensures forall room :: room in rooms && FloorOf(room.name).Some? && FloorOf(room.name).value > 0 ==>
      FloorOf(room.name).value in floors
  {
    forall room | room in rooms && FloorOf(room.name).Some? && FloorOf(room.name).value > 0
      ensures FloorOf(room.name).value in floors
    {
      RoomsOnFloorCount(rooms, FloorOf(room.name).value, room);
      assert room in RoomsOnFloor(rooms, FloorOf(room.name).value);
    }
  }

  /** The floor numbers of the layout's rows, in order. */
  function LayoutFloors(layout: seq<(int, seq<Room>)>): (floors: seq<int>)
    ensures |floors| == |layout| && forall k :: 0 <= k < |layout| ==> floors[k] == layout[k].0
  {
    seq(|layout|, k requires 0 <= k < |layout| => layout[k].0)
  }

  /** `buildingLayout`: one row per floor above the ground that some room is on,
      highest floor first, each holding that floor's rooms in catalogue order. */
  method BuildingLayout(rooms: seq<Room>) returns (layout: seq<(int, seq<Room>)>)
    ensures forall i, j :: 0 <= i < j < |layout| ==> layout[i].0 > layout[j].0
    ensures forall k :: 0 <= k < |layout| ==>
      layout[k].0 > 0 && layout[k].1 == RoomsOnFloor(rooms, layout[k].0) && layout[k].1 != []
    ensures forall room :: room in rooms && FloorOf(room.name).Some? && FloorOf(room.name).value > 0 ==>
      FloorOf(room.name).value in LayoutFloors(layout)
  {
    var groups: map<int, seq<Room>> := map[];
    var floors: seq<int> := [];
    var i := 0;
    while i < |rooms|
      invariant 0 <= i <= |rooms|
      invariant Grouped(rooms[..i], groups, floors)
    {
      var room := rooms[i];
      var floor := FloorOf(room.name);
      if floor.Some? && floor.value > 0 {
        if floor.value in groups {
          GroupedExtend(rooms, i, groups, floors, floor.value);
          groups := groups[floor.value := groups[floor.value] + [room]];
        } else {
          GroupedOpen(rooms, i, groups, floors, floor.value);
          floors := floors + [floor.value];
          groups := groups[floor.value := [room]];
        }
      } else {
        GroupedSkip(rooms, i, groups, floors);
      }
      i := i + 1;
    }
    assert rooms[..i] == rooms;
    GroupedCoversRooms(rooms, groups, floors);
    layout := OrderFloors(rooms, groups, floors);
  }

  /** The layout's comparator `Number(b) - Number(a)`: higher floors first. */
  predicate HigherFirst(a: int, b: int) {
    a >= b
  }

  lemma HigherFirstOrder()
    ensures TotalPreorder(HigherFirst)
  {
  }

  /** Sorted higher-first without repetitions is strictly descending. */
  lemma StrictlyDescending(order: seq<int>)
    requires Sorted(order, HigherFirst) && Distinct(order)
    ensures forall i, j :: 0 <= i < j < |order| ==> order[i] > order[j]
  {
    forall i, j | 0 <= i < j < |order| ensures order[i] > order[j] {
      assert HigherFirst(order[i], order[j]);
    }
  }

  /** The floors sorted with `Number(b) - Number(a)`: distinct floors come out
      strictly descending, none lost or added. */
  function SortFloors(floors: seq<int>): (order: seq<int>)
    requires Distinct(floors)
    ensures forall i, j :: 0 <= i < j < |order| ==> order[i] > order[j]
    ensures forall f :: f in order <==> f in floors
  {
    HigherFirstOrder();
    var order := SortBy(floors, HigherFirst);
    DistinctPermutation(floors, order);
    StrictlyDescending(order);
    SameMembers(floors, order);
    order
  }

  /** The rows of the layout, highest floor first. */
  method OrderFloors(rooms: seq<Room>, groups: map<int, seq<Room>>, floors: seq<int>) returns (layout: seq<(int, seq<Room>)>)
    requires Distinct(floors)
    requires forall f :: f in groups <==> f in floors
    requires forall f :: f in groups ==> f > 0 && groups[f] == RoomsOnFloor(rooms, f) && groups[f] != []
    ensures forall i, j :: 0 <= i < j < |layout| ==> layout[i].0 > layout[j].0
    ensures forall k :: 0 <= k < |layout| ==>
      layout[k].0 > 0 && layout[k].1 == RoomsOnFloor(rooms, layout[k].0) && layout[k].1 != []
    ensures forall f :: f in LayoutFloors(layout) <==> f in floors
  {
    var order := SortFloors(floors);
    layout := seq(|order|, k requires 0 <= k < |order| => (order[k], groups[order[k]]));
    assert LayoutFloors(layout) == order;
  }

  // ---------------------------------------------------------------------------
  // Feature filter

  /** `handleFeatureToggle`: the active features as a set, with `feature`
      removed when present and appended when not. */
  function ToggleFeature(active: seq<string>, feature: string): (next: seq<string>)
    ensures Distinct(next)
    ensures feature in next <==> feature !in active
    ensures forall g :: g != feature ==> (g in next <==> g in active)
  {
    var current := Dedup(active);
    if feature in current then
      RemoveAllDistinct(current, feature);
      RemoveAll(current, feature)
    else
      current + [feature]
  }

  /** `new Set(active)`: the distinct features in the order they first occur. */
  method SetOf(active: seq<string>) returns (features: seq<string>)
    ensures features == Dedup(active)
  {
    features := [];
    var i := 0;
    while i < |active|
      invariant 0 <= i <= |active|
      invariant features == Dedup(active[..i])
    {
      DedupStep(active, i);
      if active[i] !in features {
        features := features + [active[i]];
      }
      i := i + 1;
    }
    assert active[..i] == active;
  }

  /** `newFeatures.forEach(f => newParams.append('features', f))` on parameters
      whose `features` were deleted. */
  method AppendAll(features: seq<string>) returns (params: seq<string>)
    ensures params == features
  {
    params := [];
    var k := 0;
    while k < |features|
      invariant 0 <= k <= |features|
      invariant params == features[..k]
    {
      params := params + [features[k]];
      k := k + 1;
    }
  }

  /** `handleFeatureToggle`, step by step: the `Set` built from the active
      features, the feature deleted from it or added to it, and the set's
      elements appended in order as `features` parameters. */
  method HandleFeatureToggle(active: seq<string>, feature: string) returns (params: seq<string>)
    ensures params == ToggleFeature(active, feature)
  {
    var features := SetOf(active);
    if feature in features {
      features := RemoveAll(features, feature);
    } else {
      features := features + [feature];
    }
    params := AppendAll(features);
  }

  /** Pressing an inactive feature's button twice gives back the active
      features as a set, in their order. */
  lemma ToggleTwice(active: seq<string>, feature: string)
    requires feature !in active
    ensures ToggleFeature(ToggleFeature(active, feature), feature) == Dedup(active)
  {
    var current := Dedup(active);
    var once := current + [feature];
    DedupDistinct(once);
    assert once[..|once| - 1] == current;
    RemoveAbsent(current, feature);
  }

  // ---------------------------------------------------------------------------
  // Booked now and the statistics cards

  /** `b` is for the room and `now` lies between its start and end, both
      included; a time that does not parse compares false. */
  predicate BookedAt(b: Booking, roomId: string, now: int, instant: string -> Option<int>) {
    && b.resourceId == roomId
    && instant(b.start).Some? && now >= instant(b.start).value
    && instant(b.end).Some? && now <= instant(b.end).value
  }

  /** `isRoomBookedNow(roomId)` at the instant `now`. */
  function IsRoomBookedNow(roomId: string, now: int, bookings: seq<Booking>, instant: string -> Option<int>): (r: bool)
    ensures r <==> exists i :: 0 <= i < |bookings| && BookedAt(bookings[i], roomId, now, instant)
  {
    Exists(bookings, (b: Booking) => BookedAt(b, roomId, now, instant))
  }

  /** Unlike the availability check, the interval is closed: a room is still
      busy at the very instant its booking ends. */
  lemma BusyAtEnd(roomId: string, bookings: seq<Booking>, k: nat, instant: string -> Option<int>)
    requires k < |bookings| && bookings[k].resourceId == roomId
    requires instant(bookings[k].start).Some? && instant(bookings[k].end).Some?
    requires instant(bookings[k].start).value <= instant(bookings[k].end).value
    ensures IsRoomBookedNow(roomId, instant(bookings[k].end).value, bookings, instant)
  {
    assert BookedAt(bookings[k], roomId, instant(bookings[k].end).value, instant);
  }

  datatype RoomStats = RoomStats(total: nat, availableNow: nat, bookedNow: nat)

  /** The first three statistics cards. */
  function CatalogStats(rooms: seq<Room>, bookings: seq<Booking>, now: int, instant: string -> Option<int>): (stats: RoomStats)
    ensures stats.total == |rooms|
    ensures stats.availableNow + stats.bookedNow == stats.total
    ensures stats.bookedNow == |Filter(rooms, (r: Room) => IsRoomBookedNow(r.id, now, bookings, instant))|
    ensures stats.availableNow == |Filter(rooms, (r: Room) => !IsRoomBookedNow(r.id, now, bookings, instant))|
    ensures stats.bookedNow == 0 <==> forall room :: room in rooms ==> !IsRoomBookedNow(room.id, now, bookings, instant)
  {
    var booked := (r: Room) => IsRoomBookedNow(r.id, now, bookings, instant);
    var free := (r: Room) => !IsRoomBookedNow(r.id, now, bookings, instant);
    FilterPartition(rooms, booked, free);
    FilterNone(rooms, booked);
    RoomStats(|rooms|, |Filter(rooms, free)|, |Filter(rooms, booked)|)
  }

  // ---------------------------------------------------------------------------
  // Import

  /** `handleImport` once the file is read: `document` is the parsed JSON,
      `None` when it does not parse. The three collections are replaced only
      when all three are present. */
  method ImportData(store: Store, document: Option<Snapshot>) returns (imported: bool)
    requires store.Valid()
    modifies store
    ensures store.Valid()
    ensures imported <==> document.Some? && document.value.rooms.Some?
                          && document.value.bookings.Some? && document.value.assets.Some?
    ensures !imported ==> store.collections == old(store.collections)
    ensures imported ==> store.collections == old(store.collections)
      [RoomsKey := RoomRecords(document.value.rooms.value)]
      [BookingsKey := BookingRecords(document.value.bookings.value)]
      [AssetsKey := AssetRecords(document.value.assets.value)]
  {
    if document.None? {
      return false;
    }
    var data := document.value;
    if data.rooms.Some? && data.bookings.Some? && data.assets.Some? {
      var _ := store.SetItems(RoomsKey, RoomRecords(data.rooms.value));
      var _ := store.SetItems(BookingsKey, BookingRecords(data.bookings.value));
      var _ := store.SetItems(AssetsKey, AssetRecords(data.assets.value));
      return true;
    }
    return false;
  }
}
