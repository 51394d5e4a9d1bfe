/** The dashboard figures of `HotelManagementApp` (static/js/app.js): the
    three lists the app keeps, `calculateStats` with its in-place sort of the
    bookings, the integer occupancy percentage, and the action buttons a
    booking row offers. */
module Dashboard {
  import opened Common
  import Store
  import BookingsApi

  // ---------------------------------------------------------------------------
  // The records the app holds

  /** The parts of the listed rows the dashboard uses; `createdAt` is the
      `created_at` timestamp in milliseconds and `status` the raw text. */
  datatype GuestRecord = GuestRecord(id: int)
  datatype RoomRecord = RoomRecord(id: int, isAvailable: bool)
  datatype BookingRecord = BookingRecord(id: int, status: string, createdAt: int)

  // ---------------------------------------------------------------------------
  // Sorting newest first

  /** Ordered by `created_at`, newest first. */
  predicate NewestFirst(s: seq<BookingRecord>) {
    forall i, j :: 0 <= i < j < |s| ==> s[i].createdAt >= s[j].createdAt
  }

  /** Places `x` before the first booking that is not newer than it. */
  function Insert(x: BookingRecord, s: seq<BookingRecord>): (r: seq<BookingRecord>)
    requires NewestFirst(s)
    ensures NewestFirst(r)
    ensures multiset(r) == multiset(s) + multiset{x}
    ensures |r| == |s| + 1
    decreases |s|
  {
    if s == [] || s[0].createdAt <= x.createdAt then [x] + s
    else
      var rest := Insert(x, s[1..]);
      assert s == [s[0]] + s[1..];
      NoneNewerThanHead(s, x, rest);
      [s[0]] + rest
  }

  /** What `Insert` puts after the head of a sorted list is no newer than it. */
  lemma NoneNewerThanHead(s: seq<BookingRecord>, x: BookingRecord, rest: seq<BookingRecord>)
    requires NewestFirst(s) && s != [] && x.createdAt < s[0].createdAt
    requires multiset(rest) == multiset(s[1..]) + multiset{x}
    ensures forall k :: 0 <= k < |rest| ==> rest[k].createdAt <= s[0].createdAt
  {
    forall k | 0 <= k < |rest| ensures rest[k].createdAt <= s[0].createdAt {
      assert rest[k] in multiset(rest);
      if rest[k] != x {
        assert rest[k] in multiset(s[1..]);
        var m :| 0 <= m < |s[1..]| && s[1..][m] == rest[k];
        assert s[1 + m] == rest[k];
      }
    }
  }

  /** `.sort((a, b) => new Date(b.created_at) - new Date(a.created_at))`: the
      same bookings, newest first. */
  function SortNewestFirst(s: seq<BookingRecord>): (r: seq<BookingRecord>)
    ensures NewestFirst(r)
    ensures multiset(r) == multiset(s)
    ensures |r| == |s|
    decreases |s|
  {
    if s == [] then []
    else
      assert s == [s[0]] + s[1..];
      Insert(s[0], SortNewestFirst(s[1..]))
  }

  /** A list already newest first is left as it is, so sorting twice changes
      nothing. */
  lemma {:induction false} SortKeepsSorted(s: seq<BookingRecord>)
    requires NewestFirst(s)
    ensures SortNewestFirst(s) == s
    decreases |s|
  {
    if s != [] {
      SortKeepsSorted(s[1..]);
    }
  }

  // ---------------------------------------------------------------------------
  // The figures

  /** `['booked', 'checked_in'].includes(b.status)`. */
  predicate IsActive(b: BookingRecord) {
    b.status == "booked" || b.status == "checked_in"
  }

  predicate IsAvailable(r: RoomRecord) {
    r.isAvailable
  }

  /** `Math.round(((total - available) / total) * 100)`, or 0 without rooms:
      the share of occupied rooms as a percentage, rounded to the nearest
      integer with halves rounded up. */
  function OccupancyRate(total: nat, available: nat): (rate: int)
    requires available <= total
    ensures 0 <= rate <= 100
    ensures total > 0 ==> 2 * total * rate - total <= 200 * (total - available) < 2 * total * rate + total
    ensures total == 0 ==> rate == 0
  {
    if total == 0 then 0
    else
      var busy := total - available;
      var n := 200 * busy + total;
      var d := 2 * total;
      var q := n / d;
      assert n == d * q + n % d && 0 <= n % d < d;
      assert q <= 100 by {
        if q > 100 {
          MulMonotone(d, 101, q);
          assert false;
        }
      }
      q
  }

  /** No room is occupied: 0; every room is occupied: 100. */
  lemma OccupancyExtremes(total: nat)
    requires total > 0
    ensures OccupancyRate(total, total) == 0
    ensures OccupancyRate(total, 0) == 100
  {
    var r0, r1 := OccupancyRate(total, total), OccupancyRate(total, 0);
    if r0 >= 1 {
      MulMonotone(2 * total, 1, r0);
    }
    if r1 <= 99 {
      MulMonotone(2 * total, r1, 99);
    }
  }

  /** The object `calculateStats` returns, less the floating-point revenue sum. */
  datatype Stats = Stats(totalGuests: nat, totalRooms: nat, availableRooms: nat, activeBookings: nat,
                         occupancyRate: int, recentBookings: seq<BookingRecord>)

  /** The figures of one `calculateStats` call: counts over the lists as they
      are, then the first five of the bookings sorted newest first. */
  function StatsOf(guests: seq<GuestRecord>, rooms: seq<RoomRecord>, bookings: seq<BookingRecord>): (st: Stats)
    ensures st.totalGuests == |guests| && st.totalRooms == |rooms|
    ensures st.availableRooms == |Positions(rooms, IsAvailable)| <= st.totalRooms
    ensures st.activeBookings == |Positions(bookings, IsActive)|
    ensures st.occupancyRate == OccupancyRate(st.totalRooms, st.availableRooms)
    ensures |st.recentBookings| == Min(5, |bookings|)
    ensures multiset(st.recentBookings) <= multiset(bookings)
    ensures NewestFirst(st.recentBookings)
  {
    var sorted := SortNewestFirst(bookings);
    var available := Count(rooms, IsAvailable);
    var recent := sorted[..Min(5, |sorted|)];
    assert sorted == recent + sorted[|recent|..];
    Stats(|guests|, |rooms|, available, Count(bookings, IsActive), OccupancyRate(|rooms|, available), recent)
  }

  /** No booking left out of the recent list is newer than one in it. */
  lemma RecentAreNewest(guests: seq<GuestRecord>, rooms: seq<RoomRecord>, bookings: seq<BookingRecord>)
    ensures var recent := StatsOf(guests, rooms, bookings).recentBookings;
      forall b, r :: b in bookings && b !in recent && r in recent ==> r.createdAt >= b.createdAt
  {
    var sorted := SortNewestFirst(bookings);
    var recent := StatsOf(guests, rooms, bookings).recentBookings;
    assert recent == sorted[..|recent|];
    forall b, r | b in bookings && b !in recent && r in recent ensures r.createdAt >= b.createdAt {
      assert b in multiset(sorted);
      var j :| 0 <= j < |sorted| && sorted[j] == b;
      var i :| 0 <= i < |recent| && recent[i] == r;
      assert j >= |recent|;
    }
  }

  // ---------------------------------------------------------------------------
  // The app

  class App {
    /** `this.data.guests`, `this.data.rooms`, `this.data.bookings`. */
    var guests: seq<GuestRecord>
    var rooms: seq<RoomRecord>
    var bookings: seq<BookingRecord>

    constructor ()
      ensures guests == [] && rooms == [] && bookings == []
    {
      guests := [];
      rooms := [];
      bookings := [];
    }

    /** `calculateStats()`: the counts, then `this.data.bookings.sort(...)` in
        place, then its first five entries. */
    method CalculateStats() returns (stats: Stats)
      modifies this
      ensures stats == StatsOf(old(guests), old(rooms), old(bookings))
      ensures bookings == SortNewestFirst(old(bookings))
      ensures guests == old(guests) && rooms == old(rooms)
    {
      stats := StatsOf(guests, rooms, bookings);
      bookings := SortNewestFirst(bookings);
    }

    /** `loadDashboard`, once the three lists have arrived: store them and
        compute the figures. */
    method LoadDashboard(newGuests: seq<GuestRecord>, newRooms: seq<RoomRecord>, newBookings: seq<BookingRecord>)
      returns (stats: Stats)
      modifies this
      ensures guests == newGuests && rooms == newRooms
      ensures bookings == SortNewestFirst(newBookings)
      ensures stats == StatsOf(newGuests, newRooms, newBookings)
    {
      guests := newGuests;
      rooms := newRooms;
      bookings := newBookings;
      stats := CalculateStats();
    }
  }

  /** Computing the figures twice in a row gives the same figures and leaves
      the bookings where the first call put them. */
  method StatsTwice(app: App) returns (first: Stats, second: Stats)
    modifies app
    ensures first.recentBookings == second.recentBookings
    ensures app.bookings == SortNewestFirst(old(app.bookings))
  {
    first := app.CalculateStats();
    var sorted := app.bookings;
    second := app.CalculateStats();
    SortKeepsSorted(sorted);
  }

  // ---------------------------------------------------------------------------
  // Row actions

  datatype Button = CheckInButton | CancelButton | CheckOutButton

  /** The buttons of a booking row in `loadBookingsPage`: Check In and Cancel
      for `booked`, Check Out for `checked_in`, none otherwise. */
  function Actions(status: string): (buttons: seq<Button>)
    ensures status == "booked" ==> buttons == [CheckInButton, CancelButton]
    ensures status == "checked_in" ==> buttons == [CheckOutButton]
    ensures status != "booked" && status != "checked_in" ==> buttons == []
  {
    (if status == "booked" then [CheckInButton, CancelButton] else [])
      + (if status == "checked_in" then [CheckOutButton] else [])
  }

  /** Each button is offered exactly when the endpoint it calls accepts the
      booking's status. */
  lemma ButtonsMatchGuards(s: Store.Status)
    ensures CheckInButton in Actions(Store.StatusName(s)) <==> BookingsApi.Next(s, BookingsApi.CheckInAction).Some?
    ensures CheckOutButton in Actions(Store.StatusName(s)) <==> BookingsApi.Next(s, BookingsApi.CheckOutAction).Some?
    ensures CancelButton in Actions(Store.StatusName(s)) <==> BookingsApi.Next(s, BookingsApi.CancelAction).Some?
  {
  }
}
