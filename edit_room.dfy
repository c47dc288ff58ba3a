/** The room editor (app/src/routes/edit.tsx): its loader, the patch it builds
    from the submitted form, and its action. */
module EditRoom {
  import opened Wrappers
  import opened Text
  import opened Data

  /** The 404 response the loader throws. */
  datatype HttpError = NotFound

  /** `loader`: the room named by the route parameter, or 404 when the parameter
      is missing or empty or no room has that id. */
  method Loader(store: Store, roomId: Option<string>) returns (r: Result<Room, HttpError>)
    requires store.Valid()
    ensures r.Failure? <==> !Truthy(roomId) || FindRoom(store.Rooms(), roomId.value).None?
    ensures r.Success? ==> FindRoom(store.Rooms(), roomId.value) == Some(r.value)
  {
    if !Truthy(roomId) {
      return Failure(NotFound);
    }
    var room := store.GetRoom(roomId.value);
    if room.None? {
      return Failure(NotFound);
    }
    return Success(room.value);
  }

  /** The features textarea: split at commas, each piece trimmed. */
  function FeaturesFromText(text: string): (tags: seq<string>)
    ensures |tags| == multiset(text)[','] + 1
    ensures forall i :: 0 <= i < |tags| ==> NoEdgeWhitespace(tags[i]) && ',' !in tags[i]
    ensures |tags| == |Split(text, ',')|
    ensures forall i :: 0 <= i < |tags| ==> tags[i] == Trim(Split(text, ',')[i])
  {
    var parts := Split(text, ',');
    SplitCount(text, ',');
    SplitPiecesFree(text, ',');
    seq(|parts|, i requires 0 <= i < |parts| => Trim(parts[i]))
  }

  /** `features.join(", ")` with a blank after every comma: the same text as
      joining with a plain comma the tags after the first, each with a blank
      in front. */
  function Spaced(tags: seq<string>): (parts: seq<string>)
    requires |tags| >= 1
    ensures |parts| == |tags|
  {
    [tags[0]] + seq(|tags| - 1, i requires 0 <= i < |tags| - 1 => " " + tags[i + 1])
  }

  lemma {:induction false} JoinSpaced(tags: seq<string>)
    requires |tags| >= 1
    ensures Join(tags, ", ") == Join(Spaced(tags), ",")
  {
    if |tags| >= 2 {
      var rest := tags[1..];
      JoinSpaced(rest);
      var sp := Spaced(rest);
      var tail := [" " + rest[0]] + sp[1..];
      assert Spaced(tags) == [tags[0]] + tail;
      JoinPrefixFirst(" ", sp, ",");
      calc {
        Join(tags, ", ");
        tags[0] + ", " + Join(rest, ", ");
        tags[0] + "," + (" " + Join(sp, ","));
        tags[0] + "," + Join(tail, ",");
        { assert ([tags[0]] + tail)[1..] == tail; }
        Join(Spaced(tags), ",");
      }
    }
  }

  lemma SpacedPieces(tags: seq<string>)
    requires |tags| >= 1
    requires forall i :: 0 <= i < |tags| ==> ',' !in tags[i] && NoEdgeWhitespace(tags[i])
    ensures forall i :: 0 <= i < |tags| ==> ',' !in Spaced(tags)[i] && Trim(Spaced(tags)[i]) == tags[i]
  {
    var parts := Spaced(tags);
    forall i | 0 <= i < |tags| ensures ',' !in parts[i] && Trim(parts[i]) == tags[i] {
      TrimNoEdge(tags[i]);
      if i > 0 {
        assert parts[i] == [' '] + tags[i];
        TrimLeadingBlank(tags[i]);
      }
    }
  }

  /** The form shows `room.features.join(", ")`; submitting it unchanged gives
      back the same features, as long as there is at least one, none holds a
      comma and none starts or ends with whitespace. */
  lemma FeaturesRoundTrip(tags: seq<string>)
    requires |tags| >= 1
    requires forall i :: 0 <= i < |tags| ==> ',' !in tags[i] && NoEdgeWhitespace(tags[i])
    ensures FeaturesFromText(Join(tags, ", ")) == tags
  {
    JoinSpaced(tags);
    var parts := Spaced(tags);
    SpacedPieces(tags);
    SplitJoin(parts, ',');
    assert Split(Join(tags, ", "), ',') == parts;
    var r := FeaturesFromText(Join(tags, ", "));
    assert |r| == |tags|;
    forall i | 0 <= i < |tags| ensures r[i] == tags[i] {
      assert r[i] == Trim(parts[i]);
    }
  }

  /** A room without features round-trips to one empty feature, not to none. */
  lemma NoFeaturesRoundTrip()
    ensures FeaturesFromText(Join([], ", ")) == [""]
  {
    assert Trim("") == "";
  }

  /** `Number(formUpdates.capacity) || 0`: a missing, non-numeric or zero field gives 0. */
  function CapacityFrom(form: map<string, string>): (capacity: int)
    ensures "capacity" !in form ==> capacity == 0
    ensures "capacity" in form && ParseNumber(form["capacity"]).None? ==> capacity == 0
    ensures "capacity" in form && ParseNumber(form["capacity"]).Some? ==> capacity == ParseNumber(form["capacity"]).value
  {
    if "capacity" !in form then 0
    else
      match ParseNumber(form["capacity"])
      case None => 0
      case Some(n) => if n == 0 then 0 else n
  }

  /** The `updates` object: every submitted field, with capacity made a number
      and features a list (empty when the field is absent). */
  function RoomUpdates(form: map<string, string>): (updates: RoomPatch)
    ensures updates.capacity == Some(CapacityFrom(form))
    ensures updates.features.Some?
    ensures "features" in form ==> updates.features.value == FeaturesFromText(form["features"])
    ensures "features" !in form ==> updates.features.value == []
    ensures "name" in form <==> updates.name.Some?
    ensures "name" in form ==> updates.name.value == form["name"]
    ensures "id" in form <==> updates.id.Some?
    ensures "id" in form ==> updates.id.value == form["id"]
    ensures "location" in form <==> updates.location.Some?
    ensures "location" in form ==> updates.location.value == form["location"]
  {
    RoomPatch(
      if "id" in form then Some(form["id"]) else None,
      if "name" in form then Some(form["name"]) else None,
      Some(CapacityFrom(form)),
      Some(if "features" in form then FeaturesFromText(form["features"]) else []),
      if "location" in form then Some(form["location"]) else None)
  }

  /** Submitting the edit form unchanged, with its three fields showing the
      room's name, capacity and `features.join(", ")`, leaves the room as it
      was, provided the room has at least one feature, none holding a comma or
      starting or ending with whitespace. */
  lemma UnchangedFormKeepsRoom(room: Room, form: map<string, string>)
    requires "id" !in form && "location" !in form
    requires "name" in form && form["name"] == room.name
    requires "capacity" in form && ParseNumber(form["capacity"]) == Some(room.capacity)
    requires "features" in form && form["features"] == Join(room.features, ", ")
    requires |room.features| >= 1
    requires forall i :: 0 <= i < |room.features| ==> ',' !in room.features[i] && NoEdgeWhitespace(room.features[i])
    ensures Assign(room, RoomUpdates(form)) == room
  {
    FeaturesRoundTrip(room.features);
  }

  /** `action`: without a room id it raises before touching the store;
      otherwise it merges the form's patch into the room and redirects to the
      catalogue, or raises `updateRoom`'s error when no room has the id. */
  method Action(store: Store, roomId: Option<string>, form: map<string, string>) returns (r: Result<string, string>)
    requires store.Valid()
    modifies store
    ensures store.Valid()
    ensures !Truthy(roomId) ==> r == Failure("Room ID is missing") && store.collections == old(store.collections)
    ensures Truthy(roomId) && FindRoomIndex(old(store.Rooms()), roomId.value).None? ==>
      r == Failure("No room with id: " + roomId.value) && store.collections == old(store.collections)
    ensures Truthy(roomId) && FindRoomIndex(old(store.Rooms()), roomId.value).Some? ==>
      var i := FindRoomIndex(old(store.Rooms()), roomId.value).value;
      && r == Success("/catalog")
      && store.Rooms() == old(store.Rooms())[i := Assign(old(store.Rooms())[i], RoomUpdates(form))]
      && store.collections == old(store.collections)[RoomsKey := RoomRecords(store.Rooms())]
  {
    if !Truthy(roomId) {
      return Failure("Room ID is missing");
    }
    var updated := store.UpdateRoom(roomId.value, RoomUpdates(form));
    if updated.Failure? {
      return Failure(updated.error);
    }
    return Success("/catalog");
  }
}
