/** bookingsService: the slot engine (getAvailableSlots), the availability
    full replace, booking listing and status updates, booking types. */
module Bookings {
  import opened Common
  import opened Seqs
  import opened Clock
  import opened Store

  // ---------------------------------------------------------------------
  // Slot engine
  // ---------------------------------------------------------------------

  /** The grid step, independent of the service duration. */
  const SlotStep: int := 30

  /** `SELECT duration_minutes FROM booking_types WHERE id = $1 AND workspace_id = $2`, row 0. */
  function FindBookingType(types: seq<BookingType>, wid: Id, btid: Id): (r: Option<BookingType>)
    ensures r.None? <==> forall t :: t in types ==> !(t.id == btid && t.workspaceId == wid)
    ensures r.Some? ==> r.value in types && r.value.id == btid && r.value.workspaceId == wid
  {
    if types == [] then None
    else if types[0].id == btid && types[0].workspaceId == wid then Some(types[0])
    else
      var r := FindBookingType(types[1..], wid, btid);
      assert types == [types[0]] + types[1..];
      r
  }

  /** A window applies to a booking type on a weekday when it is the type's own
      window or a workspace-wide one: the two are unioned, neither overrides. */
  predicate WindowApplies(r: AvailabilityRow, wid: Id, btid: Id, dow: int) {
    && r.workspaceId == wid
    && (r.bookingTypeId == Some(btid) || r.bookingTypeId.None?)
    && r.dayOfWeek == dow
  }

  predicate StartsNoLater(a: AvailabilityRow, b: AvailabilityRow) {
    a.startTime <= b.startTime
  }

  /** The windows the engine walks for a date, ordered by start time. */
  function WindowsFor(avail: seq<AvailabilityRow>, wid: Id, btid: Id, day: int): (ws: seq<AvailabilityRow>)
    ensures forall r :: r in ws <==> r in avail && WindowApplies(r, wid, btid, DayOfWeek(day))
    ensures forall r :: multiset(ws)[r] == if WindowApplies(r, wid, btid, DayOfWeek(day)) then multiset(avail)[r] else 0
    ensures SortedBy(ws, StartsNoLater)
  {
    var dow := DayOfWeek(day);
    var applicable := Filter(avail, (r: AvailabilityRow) => WindowApplies(r, wid, btid, dow));
    var ws := SortBy(applicable, StartsNoLater);
    assert forall r :: r in ws <==> r in multiset(ws);
    assert forall r :: r in applicable <==> r in multiset(applicable);
    ws
  }

  /** A booking occupies its exact start instant unless it is cancelled. */
  predicate Occupies(b: Booking, wid: Id, btid: Id, day: int) {
    b.workspaceId == wid && b.bookingTypeId == btid && DayOf(b.scheduledAt) == day && b.status != Cancelled
  }

  /** The set of occupied instants, keyed by exact scheduled_at. */
  function Taken(bookings: seq<Booking>, wid: Id, btid: Id, day: int): set<Time> {
    set b | b in bookings && Occupies(b, wid, btid, day) :: b.scheduledAt
  }

  /** The instant of minute `m` of a day (`setHours(h, m, 0, 0)` on the date). */
  function SlotInstant(day: int, m: int): Time {
    DayStart(day) + m * MinuteMs
  }

  /** The slots of one window from cursor `min` on: while min + duration <= end,
      emit the instant unless taken, then advance by the step. */
  function GridSlots(min: int, end: int, duration: int, day: int, taken: set<Time>): seq<Time>
    decreases end - duration - min
  {
    if min + duration > end then []
    else
      var here := SlotInstant(day, min);
      (if here in taken then [] else [here]) + GridSlots(min + SlotStep, end, duration, day, taken)
  }

  /** One window, walked from its start time to its end time. The service reads the
      TIME values back from their "HH:MM:SS" rendering; `WindowReadBack` shows that
      this recovers the stored minutes exactly, so the walk uses the stored values. */
  function WindowSlots(row: AvailabilityRow, duration: int, day: int, taken: set<Time>): seq<Time> {
    GridSlots(row.startTime, row.endTime, duration, day, taken)
  }

  /** Windows in order, their slots concatenated, with no global sort or dedup. */
  function SlotsFor(ws: seq<AvailabilityRow>, duration: int, day: int, taken: set<Time>): seq<Time> {
    if ws == [] then []
    else SlotsFor(ws[..|ws| - 1], duration, day, taken) + WindowSlots(ws[|ws| - 1], duration, day, taken)
  }

  /** getAvailableSlots as a function of the tables. */
  function AvailableSlots(avail: seq<AvailabilityRow>, types: seq<BookingType>, bookings: seq<Booking>,
                          wid: Id, btid: Id, day: int): seq<Time>
  {
    match FindBookingType(types, wid, btid)
    case None => []
    case Some(bt) =>
      SlotsFor(WindowsFor(avail, wid, btid, day), bt.durationMinutes, day, Taken(bookings, wid, btid, day))
  }

  /** Reads a window's bounds the way the service does: the store renders each TIME
      as "HH:MM:SS" and `split(":").map(Number)` turns it into minutes. */
  method ReadWindowBounds(row: AvailabilityRow) returns (start: Option<int>, end: Option<int>)
    ensures start == Some(row.startTime as int) && end == Some(row.endTime as int)
  {
    start := ParseClock(FormatClock(row.startTime));
    end := ParseClock(FormatClock(row.endTime));
    WindowReadBack(row);
  }

  /** The loop over the ordered windows: each window's 30-minute grid, skipping
      taken instants, appended in window order. */
  method WalkWindows(rows: seq<AvailabilityRow>, duration: int, day: int, taken: set<Time>) returns (slots: seq<Time>)
    ensures slots == SlotsFor(rows, duration, day, taken)
  {
    slots := [];
    for i := 0 to |rows|
      invariant slots == SlotsFor(rows[..i], duration, day, taken)
    {
      assert rows[..i + 1][..i] == rows[..i];
      ghost var upTo := SlotsFor(rows[..i + 1], duration, day, taken);
      var start, end := ReadWindowBounds(rows[i]);
      if start.Some? && end.Some? {
        var min := start.value;
        var endMin := end.value;
        while min + duration <= endMin
          invariant slots + GridSlots(min, endMin, duration, day, taken) == upTo
          decreases endMin - duration - min
        {
          var instant := SlotInstant(day, min);
          ghost var rest := GridSlots(min + SlotStep, endMin, duration, day, taken);
          assert GridSlots(min, endMin, duration, day, taken) == (if instant in taken then [] else [instant]) + rest;
          if instant !in taken {
            slots := slots + [instant];
          }
          min := min + SlotStep;
        }
      }
    }
    assert rows[..|rows|] == rows;
  }

  /** getAvailableSlots: no slots without the booking type; otherwise the walk over
      the windows that apply on that weekday, ordered by start time. */
  method GetAvailableSlots(db: Db, wid: Id, btid: Id, day: int) returns (slots: seq<Time>)
    ensures slots == AvailableSlots(db.availability, db.bookingTypes, db.bookings, wid, btid, day)
  {
    var rows := WindowsFor(db.availability, wid, btid, day);
    var bt := FindBookingType(db.bookingTypes, wid, btid);
    if bt.None? {
      return [];
    }
    var taken := Taken(db.bookings, wid, btid, day);
    slots := WalkWindows(rows, bt.value.durationMinutes, day, taken);
  }

  /** A grid position is emitted iff it lies on the step grid from the window start,
      the whole service fits before the window end, and no booking starts exactly there. */
  lemma {:induction false} GridMembership(min: int, end: int, duration: int, day: int, taken: set<Time>, m: int)
    ensures SlotInstant(day, m) in GridSlots(min, end, duration, day, taken)
        <==> min <= m && (m - min) % SlotStep == 0 && m + duration <= end && SlotInstant(day, m) !in taken
    decreases end - duration - min
  {
    if min + duration <= end {
      GridMembership(min + SlotStep, end, duration, day, taken, m);
      if m != min && min <= m && (m - min) % SlotStep == 0 {
        assert min + SlotStep <= m && (m - (min + SlotStep)) % SlotStep == 0;
      }
    }
  }

  /** Every emitted instant starts at or after the window start and leaves room for
      the whole service before the window end; a window shorter than the service yields nothing. */
  lemma {:induction false} GridBounds(min: int, end: int, duration: int, day: int, taken: set<Time>)
    ensures forall x :: x in GridSlots(min, end, duration, day, taken) ==>
      SlotInstant(day, min) <= x && x + duration * MinuteMs <= SlotInstant(day, end)
    ensures end - min < duration ==> GridSlots(min, end, duration, day, taken) == []
    decreases end - duration - min
  {
    if min + duration <= end {
      GridBounds(min + SlotStep, end, duration, day, taken);
    }
  }

  predicate Earlier(a: Time, b: Time) {
    a < b
  }

  /** Within one window the instants strictly increase. */
  lemma {:induction false} GridIncreasing(min: int, end: int, duration: int, day: int, taken: set<Time>)
    ensures SortedBy(GridSlots(min, end, duration, day, taken), Earlier)
    decreases end - duration - min
  {
    if min + duration <= end {
      var here := SlotInstant(day, min);
      var head: seq<Time> := if here in taken then [] else [here];
      var rest := GridSlots(min + SlotStep, end, duration, day, taken);
      GridIncreasing(min + SlotStep, end, duration, day, taken);
      if rest != [] {
        GridBounds(min + SlotStep, end, duration, day, taken);
        assert rest[0] in rest;
      }
      var all := head + rest;
      forall i | 0 < i < |all| ensures Earlier(all[i - 1], all[i]) {
        if i - 1 < |head| {
          assert all[i - 1] == here && all[i] == rest[0];
        } else {
          assert all[i - 1] == rest[i - 1 - |head|] && all[i] == rest[i - |head|];
        }
      }
    }
  }

  /** Parsing the rendered TIME values recovers the stored minutes, so neither bound
      of a stored window reads back as NaN. */
  lemma WindowReadBack(row: AvailabilityRow)
    ensures ParseClock(FormatClock(row.startTime)) == Some(row.startTime as int)
    ensures ParseClock(FormatClock(row.endTime)) == Some(row.endTime as int)
  {
    ParseFormat(row.startTime);
    ParseFormat(row.endTime);
  }

  /** An instant is offered iff some window in the list offers it. */
  lemma {:induction false} SlotsForMembership(ws: seq<AvailabilityRow>, duration: int, day: int, taken: set<Time>, x: Time)
    ensures x in SlotsFor(ws, duration, day, taken) <==>
      exists i :: 0 <= i < |ws| && x in WindowSlots(ws[i], duration, day, taken)
  {
    if ws != [] {
      var init := ws[..|ws| - 1];
      SlotsForMembership(init, duration, day, taken, x);
      if x in SlotsFor(ws, duration, day, taken) && x !in WindowSlots(ws[|ws| - 1], duration, day, taken) {
        var i :| 0 <= i < |init| && x in WindowSlots(init[i], duration, day, taken);
        assert init[i] == ws[i];
      }
      if exists i :: 0 <= i < |ws| && x in WindowSlots(ws[i], duration, day, taken) {
        var i :| 0 <= i < |ws| && x in WindowSlots(ws[i], duration, day, taken);
        if i < |init| {
          assert init[i] == ws[i];
        }
      }
    }
  }

  /** Without the booking type in this workspace the result is empty, whatever windows exist. */
  lemma NoSlotsWithoutBookingType(avail: seq<AvailabilityRow>, types: seq<BookingType>, bookings: seq<Booking>,
                                  wid: Id, btid: Id, day: int)
    requires forall t :: t in types ==> !(t.id == btid && t.workspaceId == wid)
    ensures AvailableSlots(avail, types, bookings, wid, btid, day) == []
  {
  }

  /** A window offers minute m: m is on its grid and the service fits before its end. */
  predicate OffersMinute(r: AvailabilityRow, m: int, duration: int) {
    r.startTime <= m && (m - r.startTime) % SlotStep == 0 && m + duration <= r.endTime
  }

  /** Over a list of windows: minute m's instant is offered iff some window offers m
      and the instant is not taken. */
  lemma WalkOffers(ws: seq<AvailabilityRow>, duration: int, day: int, taken: set<Time>, m: int)
    ensures SlotInstant(day, m) in SlotsFor(ws, duration, day, taken) <==>
      (exists r :: r in ws && OffersMinute(r, m, duration)) && SlotInstant(day, m) !in taken
  {
    var x := SlotInstant(day, m);
    SlotsForMembership(ws, duration, day, taken, x);
    forall i | 0 <= i < |ws|
      ensures x in WindowSlots(ws[i], duration, day, taken) <==> OffersMinute(ws[i], m, duration) && x !in taken
    {
      GridMembership(ws[i].startTime, ws[i].endTime, duration, day, taken, m);
    }
    if exists r :: r in ws && OffersMinute(r, m, duration) {
      var r :| r in ws && OffersMinute(r, m, duration);
      var i :| 0 <= i < |ws| && ws[i] == r;
    }
  }

  /** What the engine offers, in terms of the tables: the instant of minute m is offered
      iff some window that applies to the type on that weekday offers m for the service's
      duration and no non-cancelled booking of the type starts exactly at that instant. */
  lemma AvailableSlotsExactly(avail: seq<AvailabilityRow>, types: seq<BookingType>, bookings: seq<Booking>,
                              wid: Id, btid: Id, day: int, bt: BookingType, m: int)
    requires FindBookingType(types, wid, btid) == Some(bt)
    ensures SlotInstant(day, m) in AvailableSlots(avail, types, bookings, wid, btid, day) <==>
      && (exists r :: r in avail && WindowApplies(r, wid, btid, DayOfWeek(day)) && OffersMinute(r, m, bt.durationMinutes))
      && (forall b :: b in bookings && Occupies(b, wid, btid, day) ==> b.scheduledAt != SlotInstant(day, m))
  {
    var ws := WindowsFor(avail, wid, btid, day);
    var taken := Taken(bookings, wid, btid, day);
    WalkOffers(ws, bt.durationMinutes, day, taken, m);
  }

  // ---------------------------------------------------------------------
  // Scenarios: one 30-minute service, a Monday window 09:00-10:00.
  // ---------------------------------------------------------------------

  /** 1970-01-05, a Monday. */
  const Monday: int := 4

  function HaircutTypes(): seq<BookingType> {
    [BookingType(7, 1, "Haircut", 30, None, false)]
  }

  function MondayMorning(): seq<AvailabilityRow> {
    [AvailabilityRow(8, 1, Some(7), 1, 9 * 60, 10 * 60)]
  }

  function BookingAt(t: Time, status: BookingStatus): Booking {
    Booking(9, 1, 3, 7, t, status, None)
  }

  /** On that Monday the engine walks the one window 09:00-10:00 for the 30-minute
      service: 09:00 and 09:30, each unless taken. */
  lemma MondayMorningSlots(bookings: seq<Booking>)
    ensures AvailableSlots(MondayMorning(), HaircutTypes(), bookings, 1, 7, Monday) ==
      (if SlotInstant(Monday, 540) in Taken(bookings, 1, 7, Monday) then [] else [SlotInstant(Monday, 540)]) +
      (if SlotInstant(Monday, 570) in Taken(bookings, 1, 7, Monday) then [] else [SlotInstant(Monday, 570)])
  {
    var taken := Taken(bookings, 1, 7, Monday);
    assert DayOfWeek(Monday) == 1;
    var ws := WindowsFor(MondayMorning(), 1, 7, Monday);
    assert MondayMorning()[0] in ws;
    assert multiset(ws) == multiset(MondayMorning());
    assert |ws| == |multiset(ws)| == 1;
    assert ws == MondayMorning();
    assert SlotsFor(ws, 30, Monday, taken) == SlotsFor([], 30, Monday, taken) + WindowSlots(ws[0], 30, Monday, taken);
    assert GridSlots(600, 600, 30, Monday, taken) == [];
  }

  /** No bookings: exactly 09:00 and 09:30. */
  lemma EmptyDayOffersBothSlots()
    ensures AvailableSlots(MondayMorning(), HaircutTypes(), [], 1, 7, Monday) == [SlotInstant(Monday, 540), SlotInstant(Monday, 570)]
  {
    MondayMorningSlots([]);
  }

  /** A confirmed booking at 09:30 removes exactly that slot. */
  lemma ConfirmedBookingRemovesItsSlot()
    ensures AvailableSlots(MondayMorning(), HaircutTypes(), [BookingAt(SlotInstant(Monday, 570), Confirmed)], 1, 7, Monday)
      == [SlotInstant(Monday, 540)]
  {
    var bookings := [BookingAt(SlotInstant(Monday, 570), Confirmed)];
    assert Taken(bookings, 1, 7, Monday) == {SlotInstant(Monday, 570)} by {
      assert DayOf(SlotInstant(Monday, 570)) == Monday;
      assert bookings[0] in bookings;
    }
    MondayMorningSlots(bookings);
  }

  /** Conflicts are exact-instant only: a booking at 09:15 removes neither slot. */
  lemma PartialOverlapIsNotAConflict()
    ensures AvailableSlots(MondayMorning(), HaircutTypes(), [BookingAt(SlotInstant(Monday, 555), Confirmed)], 1, 7, Monday)
      == [SlotInstant(Monday, 540), SlotInstant(Monday, 570)]
  {
    var bookings := [BookingAt(SlotInstant(Monday, 555), Confirmed)];
    assert Taken(bookings, 1, 7, Monday) == {SlotInstant(Monday, 555)} by {
      assert DayOf(SlotInstant(Monday, 555)) == Monday;
      assert bookings[0] in bookings;
    }
    MondayMorningSlots(bookings);
  }

  /** A cancelled booking frees its instant again. */
  lemma CancelledBookingFreesItsSlot()
    ensures AvailableSlots(MondayMorning(), HaircutTypes(), [BookingAt(SlotInstant(Monday, 570), Cancelled)], 1, 7, Monday)
      == [SlotInstant(Monday, 540), SlotInstant(Monday, 570)]
  {
    var bookings := [BookingAt(SlotInstant(Monday, 570), Cancelled)];
    assert Taken(bookings, 1, 7, Monday) == {};
    MondayMorningSlots(bookings);
  }

  /** Overlapping windows are not deduplicated: the same window twice repeats every slot. */
  lemma OverlappingWindowsRepeatSlots(row: AvailabilityRow, duration: int, day: int, taken: set<Time>)
    ensures SlotsFor([row, row], duration, day, taken) ==
      WindowSlots(row, duration, day, taken) + WindowSlots(row, duration, day, taken)
  {
    assert [row, row][..1] == [row];
    assert [row][..0] == [];
    assert SlotsFor([row], duration, day, taken) == SlotsFor([], duration, day, taken) + WindowSlots(row, duration, day, taken);
  }

  // ---------------------------------------------------------------------
  // Availability: list and full replace
  // ---------------------------------------------------------------------

  /** The rows of one scope: a booking type's own rows, or with None the workspace-wide rows. */
  predicate InScope(r: AvailabilityRow, wid: Id, scope: Option<Id>) {
    r.workspaceId == wid && r.bookingTypeId == scope
  }

  predicate ByDayThenStart(a: AvailabilityRow, b: AvailabilityRow) {
    a.dayOfWeek < b.dayOfWeek || (a.dayOfWeek == b.dayOfWeek && a.startTime <= b.startTime)
  }

  /** listAvailability: one scope's rows ordered by (day_of_week, start_time). */
  function ListAvailability(avail: seq<AvailabilityRow>, wid: Id, scope: Option<Id>): (r: seq<AvailabilityRow>)
    ensures forall x :: x in r <==> x in avail && InScope(x, wid, scope)
    ensures forall x :: multiset(r)[x] == if InScope(x, wid, scope) then multiset(avail)[x] else 0
    ensures SortedBy(r, ByDayThenStart)
  {
    var rows := Filter(avail, InScopeOf(wid, scope));
    var r := SortBy(rows, ByDayThenStart);
    assert forall x :: x in r <==> x in multiset(r);
    assert forall x :: x in rows <==> x in multiset(rows);
    r
  }

  datatype SlotInput = SlotInput(dayOfWeek: int, startTime: TimeOfDay, endTime: TimeOfDay)

  /** The rows inserted for the given slots, numbered from `firstId`. */
  function NewRows(slots: seq<SlotInput>, wid: Id, scope: Option<Id>, firstId: nat): (rows: seq<AvailabilityRow>)
    ensures |rows| == |slots|
  {
    seq(|slots|, k requires 0 <= k < |slots| =>
      AvailabilityRow(firstId + k, wid, scope, slots[k].dayOfWeek, slots[k].startTime, slots[k].endTime))
  }

  /** Every inserted row belongs to the scope and carries an id from the fresh range. */
  lemma NewRowsInScope(slots: seq<SlotInput>, wid: Id, scope: Option<Id>, firstId: nat)
    ensures forall r :: r in NewRows(slots, wid, scope, firstId) ==>
      InScope(r, wid, scope) && firstId <= r.id < firstId + |slots|
  {
  }

  lemma NewRowsSnoc(slots: seq<SlotInput>, k: nat, wid: Id, scope: Option<Id>, firstId: nat)
    requires k < |slots|
    ensures NewRows(slots[..k + 1], wid, scope, firstId) == NewRows(slots[..k], wid, scope, firstId) +
      [AvailabilityRow(firstId + k, wid, scope, slots[k].dayOfWeek, slots[k].startTime, slots[k].endTime)]
  {
    assert slots[..k + 1][..k] == slots[..k];
  }

  /** The scope test as a row predicate, for the WHERE clauses. */
  function InScopeOf(wid: Id, scope: Option<Id>): AvailabilityRow -> bool {
    (x: AvailabilityRow) => InScope(x, wid, scope)
  }

  function OutsideScopeOf(wid: Id, scope: Option<Id>): AvailabilityRow -> bool {
    (x: AvailabilityRow) => !InScope(x, wid, scope)
  }

  /** The DELETE of one scope: every other row, in order. */
  function OutsideScope(avail: seq<AvailabilityRow>, wid: Id, scope: Option<Id>): (r: seq<AvailabilityRow>)
    ensures forall x :: x in r <==> x in avail && !InScope(x, wid, scope)
  {
    Filter(avail, OutsideScopeOf(wid, scope))
  }

  /** The table after the replace: other scopes' rows kept in order, then the new rows. */
  function Replaced(avail: seq<AvailabilityRow>, wid: Id, scope: Option<Id>, slots: seq<SlotInput>, firstId: nat): seq<AvailabilityRow> {
    OutsideScope(avail, wid, scope) + NewRows(slots, wid, scope, firstId)
  }

  /** After the replace the scope holds exactly the given slots, in the given order. */
  lemma ReplacedScopeIsSlots(avail: seq<AvailabilityRow>, wid: Id, scope: Option<Id>, slots: seq<SlotInput>, firstId: nat)
    ensures Filter(Replaced(avail, wid, scope, slots, firstId), InScopeOf(wid, scope)) == NewRows(slots, wid, scope, firstId)
  {
    var kept := OutsideScope(avail, wid, scope);
    var added := NewRows(slots, wid, scope, firstId);
    FilterAppend(kept, added, InScopeOf(wid, scope));
    NewRowsInScope(slots, wid, scope, firstId);
    assert forall i :: 0 <= i < |kept| ==> kept[i] in kept;
    FilterNone(kept, InScopeOf(wid, scope));
    assert forall i :: 0 <= i < |added| ==> added[i] in added;
    FilterAll(added, InScopeOf(wid, scope));
  }

  /** Rows of every other scope, in this workspace or another, are untouched. */
  lemma ReplacedOtherScopes(avail: seq<AvailabilityRow>, wid: Id, scope: Option<Id>, slots: seq<SlotInput>, firstId: nat,
                            wid': Id, scope': Option<Id>)
    requires (wid', scope') != (wid, scope)
    ensures Filter(Replaced(avail, wid, scope, slots, firstId), InScopeOf(wid', scope'))
      == Filter(avail, InScopeOf(wid', scope'))
  {
    var kept := OutsideScope(avail, wid, scope);
    var added := NewRows(slots, wid, scope, firstId);
    FilterAppend(kept, added, InScopeOf(wid', scope'));
    NewRowsInScope(slots, wid, scope, firstId);
    assert forall i :: 0 <= i < |added| ==> added[i] in added;
    FilterNone(added, InScopeOf(wid', scope'));
    FilterFilter(avail, OutsideScopeOf(wid, scope), InScopeOf(wid', scope'));
  }

  /** An emptied type scope leaves the engine only the workspace-wide windows. */
  lemma ClearedScopeLeavesWorkspaceWindows(avail: seq<AvailabilityRow>, wid: Id, btid: Id, firstId: nat, day: int)
    ensures forall r :: r in WindowsFor(Replaced(avail, wid, Some(btid), [], firstId), wid, btid, day) ==>
      r in avail && r.bookingTypeId.None?
  {
  }

  /** The insert loop of setAvailability: one row per slot, each with a fresh id. */
  method InsertSlots(db: Db, wid: Id, scope: Option<Id>, slots: seq<SlotInput>)
    requires db.Valid()
    modifies db`availability, db`nextId
    ensures db.Valid()
    ensures db.nextId == old(db.nextId) + |slots|
    ensures db.availability == old(db.availability) + NewRows(slots, wid, scope, old(db.nextId))
  {
    ghost var kept := db.availability;
    ghost var first := db.nextId;
    for k := 0 to |slots|
      invariant db.Valid()
      invariant db.nextId == first + k
      invariant db.availability == kept + NewRows(slots[..k], wid, scope, first)
    {
      ghost var before := NewRows(slots[..k], wid, scope, first);
      var row := db.InsertAvailability(AvailabilityRow(0, wid, scope, slots[k].dayOfWeek, slots[k].startTime, slots[k].endTime));
      NewRowsSnoc(slots, k, wid, scope, first);
    }
    assert slots[..|slots|] == slots;
  }

  /** setAvailability: delete the scope's rows, insert one row per slot, return the scope's list. */
  method SetAvailability(db: Db, wid: Id, scope: Option<Id>, slots: seq<SlotInput>) returns (list: seq<AvailabilityRow>)
    requires db.Valid()
    modifies db`availability, db`nextId
    ensures db.Valid()
    ensures db.nextId == old(db.nextId) + |slots|
    ensures db.availability == Replaced(old(db.availability), wid, scope, slots, old(db.nextId))
    ensures list == ListAvailability(db.availability, wid, scope)
  {
    db.availability := OutsideScope(db.availability, wid, scope);
    InsertSlots(db, wid, scope, slots);
    list := ListAvailability(db.availability, wid, scope);
  }

  // ---------------------------------------------------------------------
  // Bookings: listing, status updates, booking types
  // ---------------------------------------------------------------------

  /** Optional query filters of listBookings (an absent or empty one is not applied). */
  datatype BookingFilters = BookingFilters(from: Option<Time>, to: Option<Time>, status: Option<BookingStatus>)

  predicate HasBookingType(types: seq<BookingType>, id: Id) {
    exists t :: t in types && t.id == id
  }

  /** The WHERE clause of listBookings, with the inner joins on contact and booking type. */
  predicate Listed(b: Booking, contacts: seq<Contact>, types: seq<BookingType>, wid: Id, f: BookingFilters) {
    && b.workspaceId == wid
    && HasContact(contacts, b.contactId)
    && HasBookingType(types, b.bookingTypeId)
    && (f.from.Some? ==> b.scheduledAt >= f.from.value)
    && (f.to.Some? ==> b.scheduledAt <= f.to.value)
    && (f.status.Some? ==> b.status == f.status.value)
  }

  predicate ScheduledNoLater(a: Booking, b: Booking) {
    a.scheduledAt <= b.scheduledAt
  }

  /** listBookings: the matching bookings ordered by scheduled_at ascending. */
  function ListBookings(bookings: seq<Booking>, contacts: seq<Contact>, types: seq<BookingType>,
                        wid: Id, f: BookingFilters): (r: seq<Booking>)
    ensures forall b :: b in r <==> b in bookings && Listed(b, contacts, types, wid, f)
    ensures forall b :: multiset(r)[b] == if Listed(b, contacts, types, wid, f) then multiset(bookings)[b] else 0
    ensures SortedBy(r, ScheduledNoLater)
  {
    var rows := Filter(bookings, (b: Booking) => Listed(b, contacts, types, wid, f));
    var r := SortBy(rows, ScheduledNoLater);
    assert forall x :: x in r <==> x in multiset(r);
    assert forall x :: x in rows <==> x in multiset(rows);
    r
  }

  predicate IsBooking(b: Booking, wid: Id, bid: Id) {
    b.id == bid && b.workspaceId == wid
  }

  /** `UPDATE bookings SET status = $1 WHERE id = $2 AND workspace_id = $3`. */
  function SetBookingStatus(bookings: seq<Booking>, wid: Id, bid: Id, status: BookingStatus): (r: seq<Booking>)
    ensures |r| == |bookings|
    ensures forall i :: 0 <= i < |r| ==>
      r[i] == if IsBooking(bookings[i], wid, bid) then bookings[i].(status := status) else bookings[i]
  {
    if bookings == [] then []
    else
      var b := bookings[0];
      [if IsBooking(b, wid, bid) then b.(status := status) else b] + SetBookingStatus(bookings[1..], wid, bid, status)
  }

  /** No transition table: the last status written wins, whatever came before. */
  lemma {:induction false} LastStatusWins(bookings: seq<Booking>, wid: Id, bid: Id, s1: BookingStatus, s2: BookingStatus)
    ensures SetBookingStatus(SetBookingStatus(bookings, wid, bid, s1), wid, bid, s2) == SetBookingStatus(bookings, wid, bid, s2)
  {
    var a := SetBookingStatus(SetBookingStatus(bookings, wid, bid, s1), wid, bid, s2);
    var b := SetBookingStatus(bookings, wid, bid, s2);
    assert |a| == |b|;
    forall i | 0 <= i < |a| ensures a[i] == b[i] {
    }
  }

  function FirstBooking(bookings: seq<Booking>, wid: Id, bid: Id): (r: Option<Booking>)
    ensures r.None? <==> forall b :: b in bookings ==> !IsBooking(b, wid, bid)
    ensures r.Some? ==> r.value in bookings && IsBooking(r.value, wid, bid)
  {
    if bookings == [] then None
    else if IsBooking(bookings[0], wid, bid) then Some(bookings[0])
    else
      assert bookings == [bookings[0]] + bookings[1..];
      FirstBooking(bookings[1..], wid, bid)
  }

  /** updateBookingStatus: overwrites the status of the booking with that id in that
      workspace, from any status to any status; otherwise 404. */
  method UpdateBookingStatus(db: Db, wid: Id, bid: Id, status: BookingStatus) returns (r: Result<Booking>)
    requires db.Valid()
    modifies db`bookings
    ensures db.Valid()
    ensures match FirstBooking(old(db.bookings), wid, bid)
      case None => r == Err(Fail(404, "Booking not found")) && db.bookings == old(db.bookings)
      case Some(b) =>
        && db.bookings == SetBookingStatus(old(db.bookings), wid, bid, status)
        && r == Ok(b.(status := status))
  {
    var found := FirstBooking(db.bookings, wid, bid);
    if found.None? {
      return Err(Fail(404, "Booking not found"));
    }
    db.UpdateBookings(SetBookingStatus(db.bookings, wid, bid, status));
    r := Ok(found.value.(status := status));
  }

  /** createBookingType: location defaults to null and is_online to false. */
  method CreateBookingType(db: Db, wid: Id, name: string, duration: int, location: Option<string>, isOnline: Option<bool>)
    returns (created: BookingType)
    requires db.Valid()
    modifies db`bookingTypes, db`nextId
    ensures db.Valid()
    ensures created == BookingType(old(db.nextId), wid, name, duration, location, isOnline.GetOr(false))
    ensures db.bookingTypes == old(db.bookingTypes) + [created]
    ensures forall t :: t in old(db.bookingTypes) ==> t.id != created.id
  {
    created := db.InsertBookingType(BookingType(0, wid, name, duration, location, isOnline.GetOr(false)));
  }
}
