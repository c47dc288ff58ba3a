# Room-Assets booking store and availability rules in Dafny

This project models the client side of Room-Assets, a room-booking application.
It has two parts:

- the record store in `app/src/data.ts`, which is a key-value map from a collection name (`rooms`, `assets`, `bookings`) to an array of records, and the repository operations that load, change and save those arrays;
- the rules that the route modules build on the store: room availability for a time interval, the room filters and feature toggles, the form actions that create or edit bookings and rooms, the catalogue's mass update, equipment overview, building layout and import, and the dashboard counters.

Each source module becomes one Dafny module:

- `Data` models `app/src/data.ts`. It has datatypes for `Room`, `Asset` and `Booking`, and a `Store` class whose `collections: map<string, seq<Record>>` the methods reassign, one method per load, change and save cycle.
- `NewBooking` models `app/src/routes/new-booking.tsx` with functions and lemmas.
- `EditBooking` models `app/src/routes/edit-booking.tsx` with functions and lemmas.
- `Catalog` models `app/src/routes/catalog.tsx`. Methods with loops cover the mass update, the equipment overview, the building layout and the feature toggle. Functions cover the "booked now" test and its statistics.
- `EditRoom` models `app/src/routes/edit.tsx`: loader and action methods over the store, and functions for the `updates` object.
- `Dashboard` models `app/src/routes/dashboard.tsx` with functions and lemmas.

Four support modules hold the JavaScript library behaviour these rely on:

- `Wrappers` holds `Option` and `Result`.
- `Seqs` holds `filter`, `some`, `every`, removal of a value, and `Set` iteration order.
- `Sorting` holds a stable insertion sort standing for `sort(sortBy(field))`.
- `Text` holds string order, `trim`, `split`, `join`, `parseInt`, `Number` on integer strings, and the first match of `/\d+/`.

Things outside the program are parameters:

- Date parsing: `instant: string -> Option<int>` gives the millisecond timestamp of a stored ISO string, or `None` for an Invalid Date. Form instants are `Option<int>`.
- The random part of new ids: `suffix`.
- The fuzzy matcher's verdict: `matches: Room -> bool`.
- The current time and the local day and month bounds: integers.

`Room` carries the four fields `data.ts` declares, plus an optional `location`, because the catalogue reads one. `Booking` carries its declared fields, plus an optional `status`, because the dashboard reads one.

Two quirks of the store are kept:

- `createRoom` and `createBooking` save the sorted listing with the new record in front.
- `updateRoom` and `deleteRoom` act on the first record with the id only.

Another quirk is kept in the availability check. `!x.valueOf()` treats both NaN and the epoch instant 0 as invalid, so an interval starting or ending at timestamp 0 is `invalid_time`.

## Model

| member | source | states |
|---|---|---|
| Data.Store.GetItems | app/src/data.ts:31-37 | A collection never written reads as the empty sequence; otherwise it reads as exactly what was stored. |
| Data.Store.SetItems | app/src/data.ts:40-42 | A save replaces the whole collection under that key with exactly the given sequence, leaves every other key as it was, and returns what it wrote. |
| Data.Store.GetRooms | app/src/data.ts:46-52 | The result is sorted by name. Without a truthy query it is a permutation of the stored rooms. With one it holds each stored room the matcher accepts, as often as it is stored, and nothing else. |
| Data.SortedRooms | app/src/data.ts:51 | `sort(sortBy("name"))` gives a sequence sorted by name that is a permutation of its input. |
| Data.SortedBookings | app/src/data.ts:100 | `sort(sortBy("start"))` gives a sequence sorted by start string that is a permutation of its input. |
| Sorting.SortBy | app/src/data.ts:51 | For any total preorder, the sort's result is sorted and is a permutation of its input. |
| Sorting.Insert | app/src/data.ts:51 | Inserting into a sorted sequence keeps it sorted and adds exactly the one element. |
| Data.NameOrder | app/src/data.ts:51 | Comparing rooms by name is total and transitive, so the name sort is well defined. |
| Data.StartOrder | app/src/data.ts:100 | Comparing bookings by start string is total and transitive. |
| Text.StrLeTotal | app/src/data.ts:51 | Of two strings, one is at most the other in JavaScript's code-unit order. |
| Text.StrLeTransitive | app/src/data.ts:51 | JavaScript's string order is transitive. |
| Text.StrLeAntisymmetric | app/src/data.ts:51 | Two strings each at most the other are equal, so the ties of a sort on a string field are exactly the records with equal values. |
| Sorting.InsertTies | app/src/data.ts:51 | Inserting into a sorted sequence keeps the elements tied with any given one in their order, the inserted element first among them. |
| Sorting.SortByTiesStep | app/src/data.ts:51 | Among the elements tied with a given one, the sort puts the first input element ahead of the sorted rest. |
| Sorting.SortByStable | app/src/data.ts:51 | The sort is stable: the elements tied with any given one come out in the order they went in. |
| Data.SortedRoomsStable | app/src/data.ts:51 | Rooms with the same name keep their relative order through `sort(sortBy("name"))`. |
| Data.SortedBookingsStable | app/src/data.ts:100 | Bookings with the same start keep their relative order through `sort(sortBy("start"))`. |
| Data.Store.CreateRoom | app/src/data.ts:54-61 | The new room has id `"r-" + suffix`, the name "Новая аудитория", capacity 0 and no features. The stored rooms become that room followed by the previous rooms sorted by name, one more than before. Looking its id up in the new list finds it. |
| Data.FindRoomIndex | app/src/data.ts:79 | The index of the first room with the id, or none exactly when no room has it. |
| Data.FindRoom | app/src/data.ts:65 | `find(...) ?? null` is none exactly when no room has the id. Otherwise it is a room of the list with that id, preceded by no other room with that id. |
| Data.Store.GetRoom | app/src/data.ts:63-66 | Returns the first stored room with the id, or none exactly when no stored room has it. |
| Data.Store.UpdateRoom | app/src/data.ts:68-75 | On an unknown id it fails with "No room with id: " + id and writes nothing. Otherwise only the first matching room changes, to its merge with the patch, and the result is that room. Every other room, the order and the length stay. An empty patch leaves the store unchanged. |
| Data.Assign | app/src/data.ts:72 | `Object.assign` sets each field the patch has to the patch's value and keeps each field it lacks. The same merge is at app/src/routes/catalog.tsx:36. |
| Data.AssignIdempotent | app/src/data.ts:72 | Merging the same patch twice is the same as merging it once. |
| Data.Store.DeleteRoom | app/src/data.ts:77-86 | It returns true exactly when some room has the id. It then removes that first room and keeps the others in order, one fewer than before. Otherwise it writes nothing. |
| Data.ForResource | app/src/data.ts:98 | Holds each booking of the resource as often as the input does, and no other booking. |
| Data.Store.GetBookings | app/src/data.ts:95-101 | The result is sorted by start. For a truthy resource id it holds exactly that resource's bookings with their multiplicities. For a null or empty id it is a permutation of all bookings. |
| Data.Store.CreateBooking | app/src/data.ts:103-110 | The new booking is the input fields with id `"b-" + suffix`. The stored bookings become it followed by the previous bookings sorted by start. |
| Data.WithId | app/src/data.ts:105 | `{ id, ...bookingData }` has the given id, every field of the data, and no status. |
| Data.SeedOnlyFillsEmpty | app/src/data.ts:122-135 | Seeding leaves every key other than the three collections untouched, and also any of the three that was not empty. |
| Data.SeedIdempotent | app/src/data.ts:117-139 | Seeding a second time with the same file changes nothing. |
| Data.Store.SeedData | app/src/data.ts:117-139 | The new store is the seeded store: a collection is written only when it was empty and the file supplies it, and a failed fetch or parse writes nothing. |
| NewBooking.CheckAvailability | app/src/routes/new-booking.tsx:43-60 | The result is `invalid_time` exactly when the interval is invalid: an instant is missing or 0, or end ≤ start. It is `conflict` exactly when the interval is valid and some booking of the room overlaps it strictly. Otherwise it is `available`. |
| NewBooking.StatusText | app/src/routes/new-booking.tsx:45-59 | `invalid_time` shows "Неверное время", `conflict` "Занята в это время" and `available` "Свободна". |
| NewBooking.StatusTextsDistinct | app/src/routes/new-booking.tsx:45-59 | Different statuses show different texts. |
| NewBooking.OverlapSymmetric | app/src/routes/new-booking.tsx:52 | Swapping the form interval and the booking interval does not change the overlap test. |
| NewBooking.NoBookingsAvailable | app/src/routes/new-booking.tsx:48-59 | With a valid interval and no booking on the room, the room is available. |
| NewBooking.BackToBackAvailable | app/src/routes/new-booking.tsx:52 | An interval that ends when a booking starts, or starts when it ends, does not conflict with it. |
| NewBooking.IrrelevantBooking | app/src/routes/new-booking.tsx:48-53 | Adding a booking of another room, or one whose start or end does not parse, never changes the status. |
| NewBooking.EnabledIffFree | app/src/routes/new-booking.tsx:137-138 | A room card is enabled exactly when the interval is valid and no booking of the room overlaps it. |
| NewBooking.FilterRooms | app/src/routes/new-booking.tsx:76-87 | Holds each room that passes both tests, as often as the input does, and no other room. The capacity test passes when the filter does not parse, is ≤ 0, or is at most the room's capacity. The feature test passes when every selected feature is among the room's. The same filter is at app/src/routes/edit-booking.tsx:82-93. |
| NewBooking.FilterRoomsAppend | app/src/routes/new-booking.tsx:76-87 | The filter keeps the catalogue order: the rooms admitted from two lists in a row are those from the first, then those from the second. |
| NewBooking.FilterRoomsSingle | app/src/routes/new-booking.tsx:76-87 | A single room is listed exactly when both tests admit it. |
| NewBooking.NoFeaturesCapacityOnly | app/src/routes/new-booking.tsx:82 | With no feature selected only the capacity test applies. |
| NewBooking.HandleFeatureChange | app/src/routes/new-booking.tsx:89-93 | The feature is in the new list exactly when it was not in the old one. Every other value keeps its multiplicity, and an absent feature is appended. The same handler is at app/src/routes/edit-booking.tsx:95-99. |
| NewBooking.FeatureChangeTwice | app/src/routes/new-booking.tsx:89-93 | Ticking an unticked feature and unticking it again restores the original list. |
| Seqs.RemoveAll | app/src/routes/new-booking.tsx:91 | `filter(f => f !== feature)` removes every occurrence and keeps every other value with its multiplicity. |
| Seqs.RemoveAllIsFilter | app/src/routes/new-booking.tsx:91 | Removing a value equals filtering with a test that rejects exactly that value, so the other values keep their order. |
| NewBooking.NewBookingData | app/src/routes/new-booking.tsx:26-37 | Without a truthy room id the result is the error "Пожалуйста, выберите аудиторию.". An invalid date throws "Invalid time value". Otherwise it is a booking of resource type `room` carrying the form's room, title, start, end and notes. |
| NewBooking.Action | app/src/routes/new-booking.tsx:24-41 | On a validation failure nothing is written and the failure is returned. Otherwise the booking is created, only the `bookings` collection is rewritten, and the action redirects to `/`. |
| EditBooking.CheckAvailability | app/src/routes/edit-booking.tsx:45-62 | The same as the new-booking check, except that the booking with the excluded id is never considered. `invalid_time` depends on the interval alone, so it is decided before any booking. |
| EditBooking.NoExclusionIsNewCheck | app/src/routes/edit-booking.tsx:45-62 | Without an id to exclude, the result equals the new-booking check's. |
| EditBooking.ExcludedNeverConflicts | app/src/routes/edit-booking.tsx:50 | Adding the excluded booking, wherever its slot lies, never changes the status. |
| EditBooking.OwnSlotAvailable | app/src/routes/edit-booking.tsx:146 | Take a room whose differently-identified bookings do not overlap one another. Re-checking one of its bookings against its own unchanged valid slot, excluding its id, gives `available`. |
| EditBooking.EnabledIffFree | app/src/routes/edit-booking.tsx:146-147 | A card is enabled exactly when the interval is valid and no non-excluded booking of the room overlaps it. |
| EditBooking.EditPayload | app/src/routes/edit-booking.tsx:27-39 | It fails exactly when the new-booking action would, with the same error. Otherwise the payload carries the same title, room, start, end and notes and no resource type, id or status. |
| Catalog.ApplyUpdate | app/src/routes/catalog.tsx:34-37 | An id that matches no room changes nothing. Otherwise only the first matching room changes, and it becomes its merge with the patch. |
| Catalog.ApplyUpdates | app/src/routes/catalog.tsx:33-38 | Applying the patches in turn keeps the number of rooms. |
| Catalog.UnpatchedUnchanged | app/src/routes/catalog.tsx:32-39 | When no patch renames a room, a room that is no key's first match keeps all its fields. That covers a room whose id is no key, and also a later room sharing a key's id, since `find` takes only the first. |
| Catalog.PatchedMerged | app/src/routes/catalog.tsx:32-39 | When no patch renames a room and the keys are distinct, the first room with a key's id ends up merged with that key's patch. |
| Catalog.UpdatesKeepIds | app/src/routes/catalog.tsx:32-39 | Patches that set no id keep every room's id in place. |
| Catalog.MassUpdate | app/src/routes/catalog.tsx:28-41 | The stored rooms become the patches applied in turn to the name-sorted rooms, with the same length. Nothing else in the store changes. |
| Catalog.EquipmentOverview | app/src/routes/catalog.tsx:55-59 | The counts hold exactly the features that occur in some room. Each count equals the feature's number of occurrences over all rooms. |
| Catalog.TallyFeatures | app/src/routes/catalog.tsx:57 | Counting one room's features on top of a correct tally gives a correct tally of the features seen so far plus that room's. |
| Catalog.FeatureBagSize | app/src/routes/catalog.tsx:57 | The occurrences counted add up to the total number of feature entries over the rooms. |
| Catalog.FloorOf | app/src/routes/catalog.tsx:64-66 | A name has a floor exactly when it contains a digit. The floor is never negative. |
| Catalog.FloorOfName | app/src/routes/catalog.tsx:64-66 | A name made of a digit-free prefix, a digit run, and a tail that does not start with a digit is on floor ⌊run / 100⌋. |
| Text.FirstDigitRun | app/src/routes/catalog.tsx:64 | `/\d+/` finds nothing exactly when the name has no digit. Otherwise it finds a non-empty digit run. |
| Text.FirstDigitRunAt | app/src/routes/catalog.tsx:64 | The run found starts at the first digit and is the longest digit run there. |
| Text.FirstDigitRunOf | app/src/routes/catalog.tsx:64 | In a digit-free prefix, a digit run and a tail not starting with a digit, `/\d+/` matches exactly that run. |
| Catalog.RoomsOnFloorCount | app/src/routes/catalog.tsx:63-71 | A floor's row holds each room on that floor as often as the catalogue does, and no other room. |
| Catalog.BuildingLayout | app/src/routes/catalog.tsx:61-74 | Rows are strictly descending by floor. Every row is above the ground, non-empty, and holds exactly its floor's rooms in catalogue order. Every room with a floor above the ground has its floor's row. |
| Catalog.SortFloors | app/src/routes/catalog.tsx:73 | Sorting distinct floors with `Number(b) - Number(a)` gives them strictly descending, none lost or added. |
| Catalog.OrderFloors | app/src/routes/catalog.tsx:73 | The rows are strictly descending by floor. Each row is above the ground and holds exactly its floor's rooms. The rows' floors are exactly the floors found. |
| Seqs.Dedup | app/src/routes/catalog.tsx:77 | `new Set(array)` holds each value of the array exactly once. |
| Catalog.ToggleFeature | app/src/routes/catalog.tsx:76-83 | The result has no repetitions. It contains the feature exactly when the active list did not. Every other feature is active before exactly when it is after. |
| Catalog.SetOf | app/src/routes/catalog.tsx:77 | Building a `Set` from the active features yields each of them once, in the order each first occurs. |
| Catalog.AppendAll | app/src/routes/catalog.tsx:80-81 | After deleting `features` from the parameters, appending the set's elements one by one gives exactly the set's elements, in order. |
| Catalog.HandleFeatureToggle | app/src/routes/catalog.tsx:76-83 | Building the set, deleting or adding the feature, and appending the parameters gives exactly the toggled feature list. |
| Catalog.ToggleTwice | app/src/routes/catalog.tsx:76-83 | Toggling an inactive feature twice gives back the active features as a set, in their order. |
| Catalog.IsRoomBookedNow | app/src/routes/catalog.tsx:115-118 | True exactly when some booking of the room has start ≤ now ≤ end, with both instants parsing. |
| Catalog.BusyAtEnd | app/src/routes/catalog.tsx:117 | Both ends are included: a room counts as booked at the very instant its booking ends. |
| Catalog.CatalogStats | app/src/routes/catalog.tsx:123-125 | The total is the number of rooms. "Booked" is the number of rooms booked now, counted with their multiplicity. "Available now" is the number of rooms not booked now. The two add up to the total, and "booked" is 0 exactly when no room is booked now. |
| Catalog.ImportData | app/src/routes/catalog.tsx:101-111 | It imports exactly when the file parses and has `rooms`, `bookings` and `assets`. It then overwrites those three collections with them. Otherwise it writes nothing. |
| EditRoom.Loader | app/src/routes/edit.tsx:7-16 | It gives Not Found exactly when the room id is missing or empty, or no room has it. Otherwise it returns the first room with that id. |
| EditRoom.FeaturesFromText | app/src/routes/edit.tsx:28-29 | Tag i is the i-th comma-separated piece of the text, trimmed. There is one more tag than there are commas. No tag holds a comma or starts or ends with whitespace. |
| Text.Trim | app/src/routes/edit.tsx:29 | The trimmed string neither starts nor ends with whitespace. It is no longer than the original and holds only its characters. |
| Text.TrimInfix | app/src/routes/edit.tsx:29 | The trimmed string is an infix of the original, and everything outside it is whitespace. |
| Text.Split | app/src/routes/edit.tsx:29 | `split(',')` gives at least one piece, even for the empty string. |
| Text.Join | app/src/routes/edit.tsx:66 | `join` of no parts is the empty string, and a join of at least one part starts with the first part. |
| Text.SplitCount | app/src/routes/edit.tsx:29 | `split(sep)` gives one more piece than the string has separators. |
| Text.JoinSplit | app/src/routes/edit.tsx:29 | Joining the pieces of a split with the separator gives back the string. |
| Text.SplitJoin | app/src/routes/edit.tsx:29 | Splitting the join of a non-empty list of separator-free pieces gives back the list. |
| EditRoom.FeaturesRoundTrip | app/src/routes/edit.tsx:66 | A non-empty feature list with no comma and no edge whitespace in any tag survives `join(", ")` followed by split and trim. |
| EditRoom.NoFeaturesRoundTrip | app/src/routes/edit.tsx:66 | A room with no features shows the empty string, which comes back as the one-element list `[""]`. |
| EditRoom.CapacityFrom | app/src/routes/edit.tsx:27 | A missing, non-numeric or zero capacity field gives 0. A numeric one gives its value. |
| Text.ParseNumber | app/src/routes/edit.tsx:27 | A blank string is 0. Otherwise the trimmed string parses exactly when it is an optional sign followed by at least one digit. |
| Text.ParseNumberOfDigits | app/src/routes/edit.tsx:27 | A digit string is the number it spells. |
| Text.ParseNumberOfNegative | app/src/routes/edit.tsx:27 | A minus sign before a digit string gives the negated number. |
| Text.ParseNumberOfPositive | app/src/routes/edit.tsx:27 | A plus sign before a digit string gives the same number. |
| Text.TrimPadded | app/src/routes/edit.tsx:29 | Whitespace around a string without edge whitespace is exactly what trimming removes. |
| Text.ParseNumberPadded | app/src/routes/edit.tsx:27 | Whitespace on either side of the field does not change what `Number` reads. |
| Text.ParseNumberOfPaddedDigits | app/src/routes/edit.tsx:27 | A digit string with whitespace around it is the number it spells, so `Number(" 12 ")` is 12. |
| EditRoom.RoomUpdates | app/src/routes/edit.tsx:25-31 | Capacity is always set, to the defaulted number. Features are always set: split and trimmed when the field is present, empty otherwise. Each submitted field is carried as given. |
| EditRoom.UnchangedFormKeepsRoom | app/src/routes/edit.tsx:25-31 | Submitting the form unchanged leaves the room as it was, provided the room has at least one feature and no feature holds a comma or starts or ends with whitespace. |
| EditRoom.Action | app/src/routes/edit.tsx:18-35 | A missing room id fails with "Room ID is missing" before anything is written. An unknown id fails with `updateRoom`'s error and writes nothing. Otherwise the first matching room is merged with the form's patch, only the `rooms` collection is rewritten, and the action redirects to `/catalog`. |
| Text.ParseIntPrefix | app/src/routes/new-booking.tsx:78 | `parseInt(s, 10)` is a number exactly when a digit follows the leading whitespace and an optional sign. |
| Text.ParseIntOfDigits | app/src/routes/new-booking.tsx:78 | A digit string followed by a non-digit parses to the digits' value. |
| Text.ParseIntOfBlankDigits | app/src/routes/new-booking.tsx:78 | Leading whitespace, then digits, then a non-digit or the end, parses to the digits' value. |
| Text.ParseIntOfNegative | app/src/routes/new-booking.tsx:78 | Leading whitespace, a minus sign, then digits, parses to the negated value, so a filter such as "-5" is ≤ 0 and is ignored. |
| Text.ParseIntOfPositive | app/src/routes/new-booking.tsx:78 | Leading whitespace, a plus sign, then digits, parses to the digits' value. |
| Dashboard.RoomName | app/src/routes/dashboard.tsx:13-16 | It gives the name of the first room with the id, or "Неизвестно" when no room has it. |
| Dashboard.DashboardStats | app/src/routes/dashboard.tsx:30-46 | The total is the number of bookings. "Active today" counts exactly the bookings starting in [todayStart, todayEnd), "this month" those starting at or after monthStart, and "pending" and "rejected" those with that status. Each count is at most the total, and pending plus rejected is at most the total. |
| Seqs.Filter | app/src/routes/dashboard.tsx:36-43 | `filter` keeps each element that passes, as often as it occurs, in a sequence no longer than the input. |
| Seqs.FilterAppend | app/src/routes/dashboard.tsx:36-43 | `filter` keeps order: filtering two sequences in a row filters the first, then the second. |
| Seqs.FilterSingleton | app/src/routes/dashboard.tsx:36-43 | A single element is kept exactly when it passes. |
| Seqs.FilterCons | app/src/routes/dashboard.tsx:36-43 | Filtering a non-empty sequence decides its first element, then filters the rest. |
| Seqs.FilterDisjoint | app/src/routes/dashboard.tsx:41-42 | Two filters by predicates that never hold together select at most the whole sequence. |
| Seqs.FilterPartition | app/src/routes/catalog.tsx:124-125 | Two filters by complementary predicates split a sequence: their lengths add up to its length. |
| Dashboard.ShortId | app/src/routes/dashboard.tsx:97 | `slice(-6)` gives the last six characters of the id, or the whole id when it is shorter. |
| Dashboard.GetStatusInfo | app/src/routes/dashboard.tsx:48-55 | "confirmed", "pending" and "rejected" get their own classes and the texts "Подтверждено", "В ожидании" and "Отклонено". Any other value gets the empty class and the text "Неизвестно". |
| Dashboard.StatusBadgesDistinct | app/src/routes/dashboard.tsx:48-55 | The three known statuses map to three different badges, none of them the unknown one. |

## Left out

- Persistence is an in-memory map. The localforage backend, its asynchrony, and the lost update when two load, change and save cycles interleave are not modelled.
- The fuzzy matcher is a parameter `matches` standing for its verdict on each room; its ranking is not modelled. Its restriction to the `name` key lies inside that parameter.
- `getRooms` ignores the feature list that the catalogue loader passes to it. The model has no such argument either.
- Data.Store.GetRooms: with a truthy query, rooms with equal names come out in catalogue order. In the source they keep the order of `matchSorter`'s ranking, which is not modelled. Without a query, the sort is stable, as `Array.prototype.sort` has been required to be since ECMAScript 2019, so ties keep their stored order as the model proves.
- String order compares characters as Unicode scalar values. JavaScript compares UTF-16 code units, which differs only for characters outside the Basic Multilingual Plane.
- `Math.random().toString(36)` is the parameter `suffix`.
- Date parsing, `toISOString`, `toTimeString`, `toLocaleString` and the local-time day and month bounds are parameters. A form date that does not parse is `None`.
- Text.ParseNumber: models `Number` on integer strings only. Fractions, exponents, hexadecimal and `Infinity` are not modelled.
- Text.ParseIntPrefix: the value is exact. `parseInt`'s loss of precision above 2^53 is not modelled.
- Catalog.FloorOf: the floor is the exact value of the digit run. `parseInt` on a run of more than 15 digits loses precision above 2^53, which is not modelled.
- Catalog.CatalogStats: one instant `now` serves every room. The source's `isRoomBookedNow` calls `new Date()` each time, so the two filters read the clock at different instants. A booking ending between those readings can then break "available now plus booked equals the total".
- `getBooking`, `updateBooking` and `deleteBooking` are not defined in `app/src/data.ts`. So the edit-booking loader is not modelled, and neither is the effect of its action on the store. `EditBooking.EditPayload` gives the payload the action hands over. The delete routes `app/src/routes/destroy.tsx` and `app/src/routes/booking-destroy.tsx` are not part of this model.
- `setItems` is not exported by `app/src/data.ts`, though the catalogue imports it. `getAllData` is not defined there, though the catalogue loader and export use it. The catalogue's mass update and import are modelled as if `setItems` were reachable. Its loader and export are not modelled.
- Catalog.EquipmentOverview: treats the counts object as a plain dictionary. A feature named like an `Object.prototype` member, such as `constructor`, is not modelled.
- Catalog.MassUpdate: the patches are taken in the order the `for...in` loop visits the keys. The engine's key ordering, which puts integer-like keys first, is not modelled. The lemmas about merged and untouched rooms assume no patch sets an `id`; the method itself covers every patch.
- `JSON.parse` of the mass-update field and of the imported file is not modelled. A file that does not parse is `None`.
- `FileReader`, `confirm`, `alert`, the page reload, the export download, `fetch` of the seed file, and console logging are not modelled.
- React components, hooks and state, CSS, routing and the whole server directory are not modelled.
- EditRoom.RoomUpdates: fields are the form's string values as `Object.fromEntries` leaves them. A duplicated form key keeps its last value. A field other than `id`, `name`, `capacity`, `features` and `location` is not carried, because `Room` has no place for it.
