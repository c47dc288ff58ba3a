/** The bookings dashboard (app/src/routes/dashboard.tsx): room names, the
    statistics cards and the status badges. */
module Dashboard {
  import opened Wrappers
  import opened Seqs
  import opened Data

  /** What the dashboard shows for an unknown room or status. */
  const Unknown := "Неизвестно"

  /** `getRoomName(roomId, rooms)`: the name of the first room with the id. */
  function RoomName(roomId: string, rooms: seq<Room>): (name: string)
    ensures (forall j :: 0 <= j < |rooms| ==> rooms[j].id != roomId) ==> name == Unknown
    ensures forall j ::
      (0 <= j < |rooms| && rooms[j].id == roomId && (forall k :: 0 <= k < j ==> rooms[k].id != roomId)) ==> name == rooms[j].name
  {
    match FindRoom(rooms, roomId)
    case Some(room) => room.name
    case None => Unknown
  }

  /** `#{booking.id.slice(-6)}`: the last six characters of the id, or all of it. */
  function ShortId(id: string): (short: string)
    ensures |short| == if |id| < 6 then |id| else 6
    ensures id == id[..|id| - |short|] + short
  {
    if |id| < 6 then id else id[|id| - 6..]
  }

  /** The booking starts in `[from, until)`; a start that does not parse is in no range. */
  predicate StartsWithin(b: Booking, from: int, until: int, instant: string -> Option<int>) {
    instant(b.start).Some? && from <= instant(b.start).value < until
  }

  /** The booking starts at or after `from`. */
  predicate StartsFrom(b: Booking, from: int, instant: string -> Option<int>) {
    instant(b.start).Some? && from <= instant(b.start).value
  }

  predicate HasStatus(b: Booking, status: string) {
    b.status == Some(status)
  }

  datatype Stats = Stats(total: nat, activeToday: nat, pending: nat, rejected: nat, thisMonth: nat)

  /** `dashboardStats`, the day and month bounds being the instants of local
      midnight today, tomorrow and on the first of the month. */
  function DashboardStats(bookings: seq<Booking>, todayStart: int, todayEnd: int, monthStart: int,
                          instant: string -> Option<int>): (s: Stats)
    ensures s.total == |bookings|
    ensures s.activeToday <= s.total && s.thisMonth <= s.total
    ensures s.pending + s.rejected <= s.total
    ensures s.activeToday == |Filter(bookings, (b: Booking) => StartsWithin(b, todayStart, todayEnd, instant))|
    ensures s.pending == |Filter(bookings, (b: Booking) => HasStatus(b, "pending"))|
    ensures s.rejected == |Filter(bookings, (b: Booking) => HasStatus(b, "rejected"))|
    ensures s.thisMonth == |Filter(bookings, (b: Booking) => StartsFrom(b, monthStart, instant))|
    ensures s.activeToday == 0 <==> forall b :: b in bookings ==> !StartsWithin(b, todayStart, todayEnd, instant)
    ensures s.thisMonth == s.total <==> forall b :: b in bookings ==> StartsFrom(b, monthStart, instant)
    ensures monthStart <= todayStart ==> s.activeToday <= s.thisMonth
  {
    var today := (b: Booking) => StartsWithin(b, todayStart, todayEnd, instant);
    var pending := (b: Booking) => HasStatus(b, "pending");
    var rejected := (b: Booking) => HasStatus(b, "rejected");
    var month := (b: Booking) => StartsFrom(b, monthStart, instant);
    FilterDisjoint(bookings, pending, rejected);
    FilterNone(bookings, today);
    FilterAll(bookings, month);
    assert monthStart <= todayStart ==> |Filter(bookings, today)| <= |Filter(bookings, month)| by {
      if monthStart <= todayStart {
        FilterMonotone(bookings, today, month);
      }
    }
    var active := Filter(bookings, today);
    var monthly := Filter(bookings, month);
    Stats(|bookings|, |active|, |Filter(bookings, pending)|, |Filter(bookings, rejected)|, |monthly|)
  }

  datatype StatusInfo = StatusInfo(text: string, className: string)

  /** `getStatusInfo(status)`: the badge for a booking's status. */
  function GetStatusInfo(status: Option<string>): (info: StatusInfo)
    ensures info.className == "" <==> status !in {Some("confirmed"), Some("pending"), Some("rejected")}
    ensures info.className == "" ==> info.text == Unknown
    ensures status == Some("confirmed") ==> info.className == "status-confirmed"
    ensures status == Some("pending") ==> info.className == "status-pending"
    ensures status == Some("rejected") ==> info.className == "status-rejected"
    ensures status == Some("confirmed") ==> info.text == "Подтверждено"
    ensures status == Some("pending") ==> info.text == "В ожидании"
    ensures status == Some("rejected") ==> info.text == "Отклонено"
  {
    match status
    case Some("confirmed") => StatusInfo("Подтверждено", "status-confirmed")
    case Some("pending") => StatusInfo("В ожидании", "status-pending")
    case Some("rejected") => StatusInfo("Отклонено", "status-rejected")
    case _ => StatusInfo(Unknown, "")
  }

  /** The three known statuses get three different badges, none of them the unknown one. */
  lemma StatusBadgesDistinct(s: Option<string>, t: Option<string>)
    requires s in {Some("confirmed"), Some("pending"), Some("rejected")}
    requires t in {Some("confirmed"), Some("pending"), Some("rejected")}
    ensures GetStatusInfo(s) == GetStatusInfo(t) <==> s == t
    ensures GetStatusInfo(s).text != Unknown
  {
  }
}
