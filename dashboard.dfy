/** The dashboard service: the navigation badge counts and the overview page
    (today's and upcoming bookings, the day's outcomes, open conversations, form
    progress and low stock), all read-only counts and filters over the tables. */
module Dashboard {
  import opened Common
  import opened Seqs
  import opened Store
  import Bookings
  import Inbox
  import Inventory

  // ---------------------------------------------------------------------
  // getNavCounts
  // ---------------------------------------------------------------------

  /** The WHERE clause of the inbox count: the latest message is inbound and the
      conversation was never read or read before it. */
  predicate CountedUnread(c: Conversation, msgs: seq<Message>) {
    var last := Inbox.LatestMessage(msgs, c.id);
    && last.Some? && last.value.direction == In
    && (c.lastReadAt.None? || last.value.createdAt > c.lastReadAt.value)
  }

  /** On times in whole milliseconds, the badge rule and the list's has_unread rule
      agree except for a read time of exactly 0 ms, which has_unread treats as never
      read. (The badge compares the stored timestamps and has_unread their
      millisecond values, so two times within one millisecond can also tell them
      apart; the model's times are whole milliseconds.) */
  lemma NavRuleMatchesHasUnread(c: Conversation, msgs: seq<Message>)
    ensures CountedUnread(c, msgs) ==> Inbox.ConversationUnread(c, msgs)
    ensures c.lastReadAt != Some(0) ==> (Inbox.ConversationUnread(c, msgs) ==> CountedUnread(c, msgs))
  {
  }

  /** Where the rules part on whole-millisecond times: read at the epoch, latest
      inbound message at the epoch too. The list flags it, the badge does not count it. */
  lemma ReadAtEpochCountsDiffer()
    ensures var c := Conversation(1, 1, 1, "open", Some(0), None, 0);
            var msgs := [Message(2, 1, 1, In, Email, "hi", None, false, None, 0)];
            Inbox.ConversationUnread(c, msgs) && !CountedUnread(c, msgs)
  {
    var c := Conversation(1, 1, 1, "open", Some(0), None, 0);
    var msgs := [Message(2, 1, 1, In, Email, "hi", None, false, None, 0)];
    assert msgs[..0] == [];
    assert Inbox.LatestMessage(msgs, 1) == Some(msgs[0]);
  }

  function UnreadIn(msgs: seq<Message>, wid: Id): Conversation -> bool {
    (c: Conversation) => c.workspaceId == wid && CountedUnread(c, msgs)
  }

  /** The inbox badge: the workspace's conversations awaiting a reply. */
  function InboxCount(convs: seq<Conversation>, msgs: seq<Message>, wid: Id): (n: nat)
    ensures n <= |convs|
    ensures n == 0 <==> forall c :: c in convs && c.workspaceId == wid ==> !CountedUnread(c, msgs)
  {
    Count(convs, UnreadIn(msgs, wid))
  }

  function ConfirmedIn(wid: Id): Booking -> bool {
    (b: Booking) => b.workspaceId == wid && b.status == Confirmed
  }

  /** The bookings badge: the workspace's confirmed bookings, past ones included. */
  function BookingsCount(bookings: seq<Booking>, wid: Id): (n: nat)
    ensures n <= |bookings|
    ensures n == 0 <==> forall b :: b in bookings && b.workspaceId == wid ==> b.status != Confirmed
  {
    Count(bookings, ConfirmedIn(wid))
  }

  datatype NavCounts = NavCounts(inbox: nat, bookings: nat)

  /** getNavCounts: a badge is zero exactly when nothing of its kind is waiting. */
  function GetNavCounts(convs: seq<Conversation>, msgs: seq<Message>, bookings: seq<Booking>, wid: Id): (r: NavCounts)
    ensures r.inbox <= |convs| && r.bookings <= |bookings|
    ensures r.inbox == 0 <==> forall c :: c in convs && c.workspaceId == wid ==> !CountedUnread(c, msgs)
    ensures r.bookings == 0 <==> forall b :: b in bookings && b.workspaceId == wid ==> b.status != Confirmed
  {
    NavCounts(InboxCount(convs, msgs, wid), BookingsCount(bookings, wid))
  }

  /** Completing, cancelling or no-showing a confirmed booking takes it off the
      bookings badge. */
  lemma {:induction false} LeavingConfirmedLowersBadge(bookings: seq<Booking>, wid: Id, bid: Id, status: BookingStatus)
    requires status != Confirmed
    requires exists b :: b in bookings && Bookings.IsBooking(b, wid, bid) && b.status == Confirmed
    ensures BookingsCount(Bookings.SetBookingStatus(bookings, wid, bid, status), wid) < BookingsCount(bookings, wid)
  {
    var after := Bookings.SetBookingStatus(bookings, wid, bid, status);
    assert after[1..] == Bookings.SetBookingStatus(bookings[1..], wid, bid, status);
    var b :| b in bookings && Bookings.IsBooking(b, wid, bid) && b.status == Confirmed;
    CountCons(bookings, ConfirmedIn(wid));
    CountCons(after, ConfirmedIn(wid));
    if bookings[0] == b {
      StatusChangeNoMore(bookings[1..], wid, bid, status);
    } else {
      assert b in bookings[1..];
      LeavingConfirmedLowersBadge(bookings[1..], wid, bid, status);
    }
  }

  /** A status change away from confirmed never raises the bookings badge. */
  lemma {:induction false} StatusChangeNoMore(bookings: seq<Booking>, wid: Id, bid: Id, status: BookingStatus)
    requires status != Confirmed
    ensures BookingsCount(Bookings.SetBookingStatus(bookings, wid, bid, status), wid) <= BookingsCount(bookings, wid)
  {
    if bookings != [] {
      var after := Bookings.SetBookingStatus(bookings, wid, bid, status);
      assert after[1..] == Bookings.SetBookingStatus(bookings[1..], wid, bid, status);
      StatusChangeNoMore(bookings[1..], wid, bid, status);
      CountCons(bookings, ConfirmedIn(wid));
      CountCons(after, ConfirmedIn(wid));
    }
  }

  // ---------------------------------------------------------------------
  // getDashboard: the booking lists
  // ---------------------------------------------------------------------

  /** `tomorrow + "T23:59:59"`: one second before the end of tomorrow (UTC). */
  function UpcomingAfter(now: Time): Time {
    DayStart(DayOf(now) + 2) - SecondMs
  }

  /** The inner joins on the contact and the booking type. */
  predicate Joined(b: Booking, contacts: seq<Contact>, types: seq<BookingType>) {
    HasContact(contacts, b.contactId) && Bookings.HasBookingType(types, b.bookingTypeId)
  }

  predicate OnToday(b: Booking, contacts: seq<Contact>, types: seq<BookingType>, wid: Id, now: Time) {
    b.workspaceId == wid && DayOf(b.scheduledAt) == DayOf(now) && b.status != Cancelled && Joined(b, contacts, types)
  }

  predicate IsUpcoming(b: Booking, contacts: seq<Contact>, types: seq<BookingType>, wid: Id, now: Time) {
    b.workspaceId == wid && b.scheduledAt > UpcomingAfter(now) && b.status != Cancelled && Joined(b, contacts, types)
  }

  function OnTodayOf(contacts: seq<Contact>, types: seq<BookingType>, wid: Id, now: Time): Booking -> bool {
    (b: Booking) => OnToday(b, contacts, types, wid, now)
  }

  /** Today's bookings: scheduled on today's date, not cancelled, earliest first. */
  function TodayBookings(bookings: seq<Booking>, contacts: seq<Contact>, types: seq<BookingType>, wid: Id, now: Time)
    : (r: seq<Booking>)
    ensures forall b :: b in r <==> b in bookings && OnToday(b, contacts, types, wid, now)
    ensures multiset(r) == multiset(Filter(bookings, OnTodayOf(contacts, types, wid, now)))
    ensures SortedBy(r, Bookings.ScheduledNoLater)
  {
    var rows := Filter(bookings, OnTodayOf(contacts, types, wid, now));
    var r := SortBy(rows, Bookings.ScheduledNoLater);
    assert forall x :: x in r <==> x in multiset(r);
    assert forall x :: x in rows <==> x in multiset(rows);
    r
  }

  /** In a list sorted by adjacent pairs, every earlier booking is no later. */
  lemma {:induction false} SortedAll(s: seq<Booking>, i: nat, j: nat)
    requires SortedBy(s, Bookings.ScheduledNoLater)
    requires i <= j < |s|
    ensures s[i].scheduledAt <= s[j].scheduledAt
    decreases j - i
  {
    if i < j {
      SortedAll(s, i + 1, j);
      assert Bookings.ScheduledNoLater(s[i], s[i + 1]);
    }
  }

  /** LIMIT n of a list sorted by scheduled time keeps the n earliest: whatever is
      cut off comes no earlier than everything kept. */
  lemma TakeEarliest(sorted: seq<Booking>, n: nat)
    requires SortedBy(sorted, Bookings.ScheduledNoLater)
    ensures var r := Take(sorted, n);
      forall b :: b in sorted && b !in r ==> |r| == n && forall x :: x in r ==> x.scheduledAt <= b.scheduledAt
  {
    var r := Take(sorted, n);
    forall b | b in sorted && b !in r
      ensures |r| == n && forall x :: x in r ==> x.scheduledAt <= b.scheduledAt
    {
      var j :| 0 <= j < |sorted| && sorted[j] == b;
      assert j >= |r|;
      forall x | x in r ensures x.scheduledAt <= b.scheduledAt {
        var i :| 0 <= i < |r| && r[i] == x;
        SortedAll(sorted, i, j);
      }
    }
  }

  /** The upcoming rows before the LIMIT: every qualifying booking, earliest first. */
  function UpcomingSorted(bookings: seq<Booking>, contacts: seq<Contact>, types: seq<BookingType>, wid: Id, now: Time)
    : (r: seq<Booking>)
    ensures forall b :: b in r <==> b in bookings && IsUpcoming(b, contacts, types, wid, now)
    ensures SortedBy(r, Bookings.ScheduledNoLater)
  {
    var rows := Filter(bookings, (b: Booking) => IsUpcoming(b, contacts, types, wid, now));
    var r := SortBy(rows, Bookings.ScheduledNoLater);
    assert forall x :: x in r <==> x in multiset(r);
    assert forall x :: x in rows <==> x in multiset(rows);
    r
  }

  /** Upcoming bookings: after the end of tomorrow, not cancelled, the ten earliest. */
  function UpcomingBookings(bookings: seq<Booking>, contacts: seq<Contact>, types: seq<BookingType>, wid: Id, now: Time)
    : (r: seq<Booking>)
    ensures |r| <= 10
    ensures forall b :: b in r ==> b in bookings && IsUpcoming(b, contacts, types, wid, now)
    ensures SortedBy(r, Bookings.ScheduledNoLater)
    ensures forall b :: b in bookings && IsUpcoming(b, contacts, types, wid, now) && b !in r ==>
      |r| == 10 && forall x :: x in r ==> x.scheduledAt <= b.scheduledAt
  {
    var sorted := UpcomingSorted(bookings, contacts, types, wid, now);
    TakeSorted(sorted, 10, Bookings.ScheduledNoLater);
    TakeEarliest(sorted, 10);
    var r := Take(sorted, 10);
    assert forall b :: b in r ==> b in sorted;
    r
  }

  /** A booking on today's date is never among the upcoming ones. */
  lemma TodayIsNotUpcoming(b: Booking, contacts: seq<Contact>, types: seq<BookingType>, wid: Id, now: Time)
    requires OnToday(b, contacts, types, wid, now)
    ensures !IsUpcoming(b, contacts, types, wid, now)
  {
  }

  /** Tomorrow's bookings (up to 23:59:59) are on neither list. */
  lemma TomorrowIsOnNeitherList(bookings: seq<Booking>, contacts: seq<Contact>, types: seq<BookingType>,
                                wid: Id, now: Time, b: Booking)
    requires DayOf(b.scheduledAt) == DayOf(now) + 1 && b.scheduledAt <= UpcomingAfter(now)
    ensures b !in TodayBookings(bookings, contacts, types, wid, now)
    ensures b !in UpcomingBookings(bookings, contacts, types, wid, now)
  {
  }

  // ---------------------------------------------------------------------
  // getDashboard: the counts
  // ---------------------------------------------------------------------

  function TodayWithStatus(wid: Id, now: Time, status: BookingStatus): Booking -> bool {
    (b: Booking) => b.workspaceId == wid && DayOf(b.scheduledAt) == DayOf(now) && b.status == status
  }

  /** completed_today / no_show_today: today's bookings with that status. */
  function TodayCount(bookings: seq<Booking>, wid: Id, now: Time, status: BookingStatus): (n: nat)
    ensures n <= |bookings|
    ensures n == 0 <==> forall b :: b in bookings && b.workspaceId == wid && DayOf(b.scheduledAt) == DayOf(now) ==> b.status != status
  {
    Count(bookings, TodayWithStatus(wid, now, status))
  }

  /** When every booking has its contact and booking type, completed_today and
      no_show_today count exactly the rows of today's list with those statuses. */
  lemma TodayCountsMatchTodayList(bookings: seq<Booking>, contacts: seq<Contact>, types: seq<BookingType>,
                                  wid: Id, now: Time, status: BookingStatus)
    requires status != Cancelled
    requires forall b :: b in bookings ==> Joined(b, contacts, types)
    ensures TodayCount(bookings, wid, now, status) ==
            Count(TodayBookings(bookings, contacts, types, wid, now), TodayWithStatus(wid, now, status))
  {
    var keep := OnTodayOf(contacts, types, wid, now);
    var p := TodayWithStatus(wid, now, status);
    var listed := TodayBookings(bookings, contacts, types, wid, now);
    CountPermutation(listed, Filter(bookings, keep), p);
    assert forall x :: p(x) && x in bookings ==> keep(x);
    CountWithinRows(bookings, keep, p);
  }

  /** CountWithin for a `p` that implies `keep` on the table's own rows. */
  lemma {:induction false} CountWithinRows(s: seq<Booking>, keep: Booking -> bool, p: Booking -> bool)
    requires forall x :: p(x) && x in s ==> keep(x)
    ensures Count(Filter(s, keep), p) == Count(s, p)
  {
    if s != [] {
      assert s == [s[0]] + s[1..];
      CountWithinRows(s[1..], keep, p);
      assert Filter(s, p) == if p(s[0]) then [s[0]] + Filter(s[1..], p) else Filter(s[1..], p);
      if keep(s[0]) {
        assert Filter(s, keep) == [s[0]] + Filter(s[1..], keep);
        assert Filter(Filter(s, keep), p) == if p(s[0]) then [s[0]] + Filter(Filter(s[1..], keep), p)
                                             else Filter(Filter(s[1..], keep), p);
      }
    }
  }

  function OpenIn(wid: Id): Conversation -> bool {
    (c: Conversation) => c.workspaceId == wid && c.status == "open"
  }

  /** The open-conversation count. */
  function OpenCount(convs: seq<Conversation>, wid: Id): (n: nat)
    ensures n <= |convs|
    ensures n == 0 <==> forall c :: c in convs && c.workspaceId == wid ==> c.status != "open"
  {
    Count(convs, OpenIn(wid))
  }

  function SubmissionsIn(wid: Id): FormSubmission -> bool {
    (s: FormSubmission) => s.workspaceId == wid
  }

  function StatusIn(wid: Id, status: SubmissionStatus): FormSubmission -> bool {
    (s: FormSubmission) => s.workspaceId == wid && s.status == status
  }

  /** One of the three form counts. */
  function FormCount(subs: seq<FormSubmission>, wid: Id, status: SubmissionStatus): (n: nat)
    ensures n <= |subs|
    ensures n == 0 <==> forall s :: s in subs && s.workspaceId == wid ==> s.status != status
  {
    Count(subs, StatusIn(wid, status))
  }

  /** Every submission has one of the three statuses, so the three form counts
      add up to the workspace's submissions. */
  lemma {:induction false} FormCountsCoverWorkspace(subs: seq<FormSubmission>, wid: Id)
    ensures FormCount(subs, wid, Pending) + FormCount(subs, wid, Overdue) + FormCount(subs, wid, SubmissionStatus.Completed)
            == Count(subs, SubmissionsIn(wid))
  {
    if subs != [] {
      FormCountsCoverWorkspace(subs[1..], wid);
      CountCons(subs, StatusIn(wid, Pending));
      CountCons(subs, StatusIn(wid, Overdue));
      CountCons(subs, StatusIn(wid, SubmissionStatus.Completed));
      CountCons(subs, SubmissionsIn(wid));
    }
  }

  function LowIn(wid: Id): InventoryItem -> bool {
    (i: InventoryItem) => Inventory.IsLow(i, wid)
  }

  /** The overview's low-stock rows (no ORDER BY: table order). */
  function LowStock(items: seq<InventoryItem>, wid: Id): (r: seq<InventoryItem>)
    ensures forall i :: i in r <==> i in items && Inventory.IsLow(i, wid)
  {
    Filter(items, LowIn(wid))
  }

  /** The overview shows the same low-stock rows as getLowStockItems, as often,
      only not sorted by quantity. */
  lemma LowStockSameRows(items: seq<InventoryItem>, wid: Id)
    ensures multiset(LowStock(items, wid)) == multiset(Inventory.LowStockItems(items, wid))
  {
  }

  datatype BookingsPanel = BookingsPanel(today: seq<Booking>, upcoming: seq<Booking>, completedToday: nat, noShowToday: nat)
  datatype FormsPanel = FormsPanel(pending: nat, overdue: nat, completed: nat)
  datatype Overview = Overview(bookings: BookingsPanel, openConversations: nat, forms: FormsPanel, lowStock: seq<InventoryItem>)

  /** getDashboard, without the alerts panel: no booking is both today's and
      upcoming, at most ten are upcoming, the three form counts add up to the
      workspace's submissions and the low-stock rows are exactly the low items. */
  function GetDashboard(bookings: seq<Booking>, contacts: seq<Contact>, types: seq<BookingType>,
                        convs: seq<Conversation>, subs: seq<FormSubmission>, items: seq<InventoryItem>,
                        wid: Id, now: Time): (r: Overview)
    ensures forall b :: b in r.bookings.today ==> b !in r.bookings.upcoming
    ensures |r.bookings.upcoming| <= 10
    ensures r.forms.pending + r.forms.overdue + r.forms.completed == Count(subs, SubmissionsIn(wid))
    ensures forall i :: i in r.lowStock <==> i in items && Inventory.IsLow(i, wid)
    ensures r.bookings.today == TodayBookings(bookings, contacts, types, wid, now)
    ensures r.bookings.upcoming == UpcomingBookings(bookings, contacts, types, wid, now)
    ensures r.bookings.completedToday == TodayCount(bookings, wid, now, BookingStatus.Completed)
    ensures r.bookings.noShowToday == TodayCount(bookings, wid, now, NoShow)
    ensures r.openConversations == OpenCount(convs, wid)
    ensures r.forms.pending == FormCount(subs, wid, Pending) && r.forms.overdue == FormCount(subs, wid, Overdue)
    ensures r.forms.completed == FormCount(subs, wid, SubmissionStatus.Completed)
    ensures r.lowStock == LowStock(items, wid)
  {
    var today := TodayBookings(bookings, contacts, types, wid, now);
    var upcoming := UpcomingBookings(bookings, contacts, types, wid, now);
    assert forall b :: b in today ==> b !in upcoming by {
      forall b | b in today ensures b !in upcoming {
        TodayIsNotUpcoming(b, contacts, types, wid, now);
      }
    }
    var pending := FormCount(subs, wid, Pending);
    var overdue := FormCount(subs, wid, Overdue);
    var completed := FormCount(subs, wid, SubmissionStatus.Completed);
    assert pending + overdue + completed == Count(subs, SubmissionsIn(wid)) by {
      FormCountsCoverWorkspace(subs, wid);
    }
    Overview(
      BookingsPanel(today, upcoming, TodayCount(bookings, wid, now, BookingStatus.Completed), TodayCount(bookings, wid, now, NoShow)),
      OpenCount(convs, wid),
      FormsPanel(pending, overdue, completed),
      LowStock(items, wid))
  }
}
