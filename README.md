# Hotel management: a verified model of the client and the API

The hotel management application is a single-page browser app (static/js) that
talks to three serverless Python handlers (api/rooms.py, api/guests.py,
api/bookings.py) backed by a hosted PostgreSQL database. This project models,
in Dafny, the parts of both sides that decide what happens:

- **The browser API client** (`ApiClient`, module `ApiClient`). It keeps two
  sliding one-minute windows of request timestamps: 30 admitted reads and 10
  admitted writes per minute. It files every dispatched call under a request
  key, builds query-string URLs and headers, and turns a settled HTTP response
  into data, text or an error.
- **The form checks, the day count and the toast icons** (`FormValidator`,
  `DateUtils.getDaysBetween`, `ToastManager.getIcon`; module `Validators`).
- **The `Debouncer`** (module `Debounce`). It keeps one pending timer per key.
  The browser's timer queue is modelled as explicit state.
- **The dashboard figures** of `HotelManagementApp` (module `Dashboard`). It
  computes the counts, the integer occupancy rate, and the in-place sort of the
  bookings newest first with the five most recent kept. It also decides which
  action buttons a booking row offers.
- **The three tables and the shared request helpers** (module `Store`). It
  covers the id parameter, `skip`/`limit` paging and newest-first ordering.
- **The three API handlers** (modules `RoomsApi`, `GuestsApi`, `BookingsApi`).
  This includes schema validation, uniqueness of room numbers and guest
  emails, and the booking lifecycle `booked → checked_in → checked_out`, with
  `booked → cancelled` on the side. It also covers the date-conflict scan at
  booking time, the guarded guest deletion, the unvalidated updates, the
  listing filters and the method dispatch of each `handler`.

Stateful parts are classes whose methods update fields:

- the client (`ApiClient.Client`);
- the debouncer (`Debounce.Debouncer`);
- the app's three lists (`Dashboard.App`);
- the database (`Store.Database`, one map per table, keyed by row id).

Each method is specified against pure functions. The properties of those
functions are proved as lemmas.

Modelling conventions:

- **Time.** `Date.now()` becomes a parameter `now` in milliseconds. A network
  call becomes a `Dispatch` record, and its completion becomes an explicit
  `Settle` call.
- **Database errors.** A database exception becomes the 500 reply of the
  handler's catch-all. `handle_update_room` is the exception: it has its own
  catch, which answers 400.
- **Numbers.** Amounts and prices are whole numbers, booking dates are day
  numbers, and timestamps are milliseconds.
- **Ordering.** Row ids are handed out in creation order. `.order('created_at',
  desc=True)` is therefore modelled as descending id order.

Where the code and the repository's own description differ, the model follows
the code:

- The request key of `request` is called duplicate prevention. The code stores
  the key but never consults it, so identical calls are both dispatched
  (`ApiClient.IdenticalCallsBothDispatch`).

Two defects of `request` are recorded under Findings. For each, one member
models the code as written and a second models the evident intent:

- As written, only rate-limit failures reach the error toast
  (`ApiClient.AsWrittenHttpErrorIsSilent`).
- As written, a caller's headers replace the JSON Content-Type
  (`ApiClient.AsWrittenHeadersDropContentType`).

The `ApiClient.Client` class is built on the intended halves:
`ApiClient.SettleNotices` and `ApiClient.ConfigHeaders`.

## Model

| member | source | states |
|---|---|---|
| ApiClient.CategoryOf | static/js/utils.js:108 | a call is charged to the write window exactly when its method is POST, PUT or DELETE; an absent method is a read |
| ApiClient.Survivors | static/js/utils.js:92 | the purge keeps only stamps later than the cutoff, keeps every such stamp and never grows the list |
| ApiClient.SurvivorsKeepRepeats | static/js/utils.js:92 | the purge keeps each stamp later than the cutoff as many times as it occurs, so several requests in one millisecond each still count |
| ApiClient.SurvivorsOfRecent | static/js/utils.js:92 | a window whose stamps are all recent is kept whole |
| ApiClient.SurvivorsOfStale | static/js/utils.js:92 | a window whose stamps have all aged out is emptied |
| ApiClient.SurvivorsIdempotent | static/js/utils.js:92 | purging twice is purging once |
| ApiClient.MinOf | static/js/utils.js:96 | the oldest stamp is in the window and no stamp is older |
| ApiClient.WaitSeconds | static/js/utils.js:97 | the wait is the least number of whole seconds covering the time until the oldest stamp leaves the window |
| ApiClient.Check | static/js/utils.js:87-103 | admitted exactly when fewer than the limit survive the purge; admitted appends `now` to the survivors, rejected keeps just the survivors |
| ApiClient.CheckKeepsWindow | static/js/utils.js:87-103 | after any check all stored stamps lie inside the last minute; an admitted check leaves at most the limit, ending in `now` |
| ApiClient.RejectionWait | static/js/utils.js:95-98 | a rejection leaves the window full and reports a wait of at least 1 and, when no stamp lies in the future, at most 60 seconds |
| ApiClient.CheckPreservesBound | static/js/utils.js:76-79 | the window never holds more than its limit (30 reads, 10 writes) |
| ApiClient.FullWindowRejects | static/js/utils.js:95-98 | `limit` stamps inside the last minute reject the next call of that category |
| ApiClient.ElapsedWindowAdmits | static/js/utils.js:89-92 | once every stamp is a minute old the check admits and the window restarts with `now` |
| ApiClient.RecentBelowLimitAdmits | static/js/utils.js:95-102 | below the limit a call is admitted and `now` is appended |
| ApiClient.UnescapeEscapeChar | static/js/utils.js:112 | each character JSON-escaped reads back as itself |
| ApiClient.JsonEscapeRoundTrip | static/js/utils.js:112 | `JSON.stringify` of a string body loses nothing: unescaping gives the body back |
| ApiClient.KeyDeterminesBody | static/js/utils.js:112 | same method and endpoint share a request key exactly when the bodies serialise alike; a bodiless call never shares a key with a call that carries a body |
| ApiClient.Utf8 | static/js/utils.js:169 | a character is one byte exactly below 0x80, two below 0x800, three below 0x10000 and four above; the lead byte marks the length and the rest are continuation bytes |
| ApiClient.Utf8StepInverts | static/js/utils.js:169 | decoding one UTF-8 sequence gives back the character and the remaining bytes |
| ApiClient.Utf8Of | static/js/utils.js:169 | the UTF-8 bytes of a text are bytes, one to four per character |
| ApiClient.Utf8RoundTrip | static/js/utils.js:169 | decoding the UTF-8 bytes of a text gives the text back |
| ApiClient.UpperHexValue | static/js/utils.js:169 | an upper-case hex digit has a value below 16 that renders back as that digit |
| ApiClient.EncodeByte | static/js/utils.js:169 | a space becomes `+`, an unreserved byte stands for itself, and exactly every other byte becomes a three-character `%XX` escape; the output uses only unreserved characters, `+` and `%` |
| ApiClient.DecodeEncodeByte | static/js/utils.js:169 | decoding one encoded byte gives back the byte and the rest of the text |
| ApiClient.EncodeBytes | static/js/utils.js:169 | encoded bytes use only unreserved characters, `+` and `%`, one to three characters per byte |
| ApiClient.FormBytesRoundTrip | static/js/utils.js:169 | decoding the encoded bytes gives the bytes back |
| ApiClient.FormEncode | static/js/utils.js:169 | an encoded name or value uses only unreserved characters, `+` and `%`, so never `&`, `=` or `?`, and is at least as long as its text |
| ApiClient.FormEncodeRoundTrip | static/js/utils.js:169 | decoding an encoded name or value gives the text back |
| ApiClient.FormEncodeInjective | static/js/utils.js:169 | two texts with the same encoding are equal |
| ApiClient.QueryString | static/js/utils.js:169 | the query is empty exactly when there are no parameters |
| ApiClient.IndexOf | static/js/utils.js:169 | the index of the first occurrence of a character, or the length when there is none |
| ApiClient.PairRoundTrip | static/js/utils.js:169 | an encoded `name=value` pair splits at its `=` back into the name and the value |
| ApiClient.PairHasNoAmpersand | static/js/utils.js:169 | an encoded pair contains no `&`, so `&` separates pairs unambiguously |
| ApiClient.ParsePairsSingle | static/js/utils.js:169 | a query without `&` is a single pair |
| ApiClient.ParsePairsCons | static/js/utils.js:169 | a pair followed by `&` and more pairs parses as that pair followed by the rest |
| ApiClient.PairsRoundTrip | static/js/utils.js:169 | the `&`-joined encoded pairs of a non-empty parameter list parse back to that list |
| ApiClient.QueryStringRoundTrip | static/js/utils.js:169 | the query string is the `&`-joined encoded `name=value` pairs: parsing it gives back every parameter, in order |
| ApiClient.GetUrl | static/js/utils.js:168-172 | no parameters leave the endpoint alone, otherwise the endpoint is followed by `?` and a non-empty query |
| ApiClient.AsWrittenHeadersDropContentType | static/js/utils.js:133-139 | as written, a caller header such as Authorization removes the JSON Content-Type |
| ApiClient.ConfigHeaders | static/js/utils.js:133-139 | the JSON Content-Type is always sent, and the caller's headers are added or take precedence; no other header appears |
| ApiClient.Normalize | static/js/utils.js:141-166 | a transport failure fails with its reason; a non-ok status fails with the body's `error` or the status line; an ok JSON response yields its data, or fails as invalid JSON when the body does not parse; an ok non-JSON response fails when it starts with `<` and otherwise yields its text |
| ApiClient.NormalizeOk | static/js/utils.js:155-165 | the three outcomes of an ok response, each characterised both ways |
| ApiClient.HttpErrorUsesBodyMessage | static/js/utils.js:143-151 | a failed response carrying an `error` fails with exactly that text |
| ApiClient.HttpErrorWithoutBodyMessage | static/js/utils.js:147-151 | a failed response without an `error` fails with `HTTP status: statusText` |
| ApiClient.AsWrittenHttpErrorIsSilent | static/js/utils.js:105-129 | as written, a 404 with an error body fails without any toast |
| ApiClient.SettleNotices | static/js/utils.js:124-127 | a failed call is reported once with its message; a success reports nothing |
| ApiClient.Client.constructor | static/js/utils.js:73-84 | both windows and the key map start empty |
| ApiClient.Client.CheckRateLimit | static/js/utils.js:87-103 | the category's window becomes the checked window; the other window and the key map are untouched; the window bound is kept |
| ApiClient.Client.Request | static/js/utils.js:105-139 | a rejected call is reported and changes nothing else; an admitted call is dispatched with its URL, method, body and the intended merged headers, and is filed under its key, overwriting any pending call |
| ApiClient.Client.Get | static/js/utils.js:168-172 | a request with no options to the URL with its query |
| ApiClient.Client.Post | static/js/utils.js:174-179 | a POST request carrying the serialised data |
| ApiClient.Client.Put | static/js/utils.js:181-186 | a PUT request carrying the serialised data |
| ApiClient.Client.Delete | static/js/utils.js:188-192 | a DELETE request without a body |
| ApiClient.Client.Settle | static/js/utils.js:119-127 | on completion the key leaves the map, the caller receives the normalised result, and a failure is reported once, as intended |
| ApiClient.IdenticalCallsBothDispatch | static/js/utils.js:111-123 | two identical calls are both dispatched under the same key: no coalescing |
| ApiClient.WriteBudgetIsSeparate | static/js/utils.js:76-79 | the eleventh write in one instant is refused with a 60-second wait and a read at that instant still goes out |
| Validators.FindAt | static/js/utils.js:198 | the index found is the first `@` |
| Validators.EmailSound | static/js/utils.js:197-200 | every address the check accepts matches `^[^\s@]+@[^\s@]+\.[^\s@]+$` |
| Validators.EmailComplete | static/js/utils.js:197-200 | every address matching the pattern is accepted |
| Validators.EmailIff | static/js/utils.js:197-200 | the email check accepts exactly the strings the pattern matches |
| Validators.StripNonDigits | static/js/utils.js:204 | removing non-digits leaves only digits and never lengthens |
| Validators.StripCountsDigits | static/js/utils.js:204 | the digits kept are one per digit position |
| Validators.PhoneIff | static/js/utils.js:202-205 | a phone number is valid exactly when it is made of digits, whitespace and `-+()` and holds at least ten digits |
| Validators.ValidateRequired | static/js/utils.js:207-215 | the loop collects the messages of the missing fields in order |
| Validators.MissingMessagesExact | static/js/utils.js:209-213 | one message per missing field, and a message for exactly the missing fields |
| Validators.NoMessagesIffAllFilled | static/js/utils.js:207-215 | no message exactly when every field has a non-blank value |
| Validators.GetDaysBetween | static/js/utils.js:277-282 | the day count is the least number of whole days covering the distance |
| Validators.DaysBetweenSymmetric | static/js/utils.js:280 | the order of the two dates does not matter |
| Validators.DaysBetweenWholeDays | static/js/utils.js:281 | `k` whole days count as `k`; one millisecond more counts as `k + 1` |
| Validators.GetIcon | static/js/utils.js:24-32 | the icon is one of the four, and an unknown type gets the info icon |
| Validators.IconsDistinct | static/js/utils.js:25-30 | the four types get four different icons |
| Debounce.Debouncer.constructor | static/js/utils.js:327-329 | no key has a timer |
| Debounce.Debouncer.Debounce | static/js/utils.js:331-342 | the key's old timer is cleared and a fresh one is queued for `now + delay`; the key map and timer queue stay inverse to each other |
| Debounce.Debouncer.Cancel | static/js/utils.js:344-349 | the key and its timer are gone; nothing is left queued for it |
| Debounce.Debouncer.Fire | static/js/utils.js:336-339 | a queued, due timer runs its key's function once and forgets the key; anything else changes nothing |
| Debounce.BurstRunsOnce | static/js/utils.js:331-342 | for any key, gap and delay, two calls in a burst run the function once when the second timer is due and not at all before, leaving no timer behind once it has run |
| Debounce.CancelledNeverRuns | static/js/utils.js:344-349 | for any key, delay and time, a cancelled key never runs, whichever timer fires |
| Common.Count | static/js/app.js:690-691 | `filter(p).length` is the number of positions passing the test |
| Common.ParseInt | api/bookings.py:78-79 | text parses exactly when it is digits with an optional sign; its value is the number the digits denote, negated after `-` |
| Common.ParseIntOfNatToString | api/bookings.py:78-79 | a rendered id parses back to that id |
| Common.ContainsIff | api/guests.py:85 | the substring scan succeeds exactly when the text occurs somewhere |
| Common.Lower | api/rooms.py:76 | lower-casing keeps the length and folds each letter |
| Store.StatusName | api/bookings.py:156 | the stored status text reads back as the status |
| Store.Database.constructor | api/bookings.py:8-11 | the database the client connects to starts as three empty tables whose ids start at 1 |
| Store.SetAvailable | api/bookings.py:163 | the one row gets the flag; every other row and the key set are unchanged |
| Store.ReadId | api/bookings.py:185-194 | an absent or empty id is missing; other text is an id exactly when it parses |
| Store.ReadWindow | api/bookings.py:78-79 | skip and limit default to 0 and 100; the window is refused exactly when either is unparseable or negative |
| Store.Page | api/bookings.py:99 | the page is the run of at most `limit` rows starting at `skip` |
| Store.PagesAdjoin | api/bookings.py:99 | consecutive pages tile the result |
| Store.NewestFirst | api/bookings.py:99 | exactly the matching rows, strictly newest first |
| BookingsApi.LoadBooking | api/bookings.py:14-19 | a body is accepted exactly when all five fields are present, both ids are at least 1, the amount is not negative and there is no other key; the accepted fields are the body's |
| BookingsApi.Next | api/bookings.py:206-336 | every permitted action moves a booking forward and `checked_out` and `cancelled` admit none |
| BookingsApi.CancelRefusal | api/bookings.py:316-336 | cancel refuses with a message exactly the statuses other than `booked` |
| BookingsApi.RunAdvances | api/bookings.py:185-349 | any sequence of lifecycle requests makes at most two transitions, each forward |
| BookingsApi.OverlapsIffSharedDay | api/bookings.py:148 | for two well-formed stays (each check-in no later than its check-out), the overlap test holds exactly when they share a day, ends included |
| BookingsApi.FindConflict | api/bookings.py:138-153 | the scan reports a conflict exactly when an active booking of the room overlaps the stay |
| BookingsApi.HandleCreate | api/bookings.py:107-183 | through `CreateDone`: validation, guest, room, availability and conflict refusals each leave the tables untouched; success inserts one `booked` row and marks the room unavailable; references stay valid |
| BookingsApi.HandleCheckIn | api/bookings.py:185-223 | through `CheckInDone`: only a `booked` booking checks in, recording the time; otherwise 400, 404 or 500 with nothing changed |
| BookingsApi.HandleCheckOut | api/bookings.py:225-266 | through `CheckOutDone`: only a `checked_in` booking checks out, recording the time and freeing its room |
| BookingsApi.HandleCancel | api/bookings.py:295-349 | through `CancelDone`: only a `booked` booking is cancelled, freeing its room; each other status is refused with its own message |
| BookingsApi.Patch | api/bookings.py:280 | each column the body names, status and the check-in and check-out timestamps included, takes the body's value, and each column it omits keeps its value; `created_at` is kept |
| BookingsApi.PatchIdempotent | api/bookings.py:280 | repeating an update leaves the row as a single update does |
| BookingsApi.HandleUpdate | api/bookings.py:268-293 | through `UpdateDone`: the row is patched without lifecycle checks; an unknown column or a dangling reference is 500, an unknown id 404 |
| BookingsApi.ReadBookingQuery | api/bookings.py:80-97 | each filter is on exactly when its parameter is non-empty; the query is refused exactly when an id filter is not an integer |
| BookingsApi.ListBookings | api/bookings.py:76-105 | the reply is the `skip`/`limit` page of the complete newest-first list of matching bookings; an unreadable window or id filter is 500 |
| BookingsApi.RouteOf | api/bookings.py:38-67 | OPTIONS answers at once, PUT goes by `action`, unknown methods are refused |
| BookingsApi.Handle | api/bookings.py:23-74 | OPTIONS, GET and unknown methods answer as `Preflight`, `ListBookings` and 405 with nothing changed; POST, PUT by action and DELETE do exactly what `CreateDone`, `CheckInDone`, `CheckOutDone`, `UpdateDone` and `CancelDone` state; an unreadable body is 500 |
| RoomsApi.LoadRoom | api/rooms.py:13-17 | a body is accepted exactly when all four fields are present, the type is known, capacity is at least 1, the price not negative and there is no other key |
| RoomsApi.HandleCreate | api/rooms.py:90-122 | through `CreateDone`: a duplicate number is refused with nothing written; a new room is available from the start; room numbers stay unique |
| RoomsApi.PatchRoom | api/rooms.py:137 | each column the body names takes the body's value with no schema check, and each column it omits keeps its value; `created_at` is kept |
| RoomsApi.PatchRoomIdempotent | api/rooms.py:137 | repeating an update leaves the row as a single update does |
| RoomsApi.HandleUpdate | api/rooms.py:124-157 | through `UpdateDone`: a missing id is 400, a database error 400, an unknown id 404, otherwise the row is patched |
| RoomsApi.ReadRoomQuery | api/rooms.py:69-80 | `available` filters whenever present, true exactly for `true` in any case; `room_type` filters when non-empty |
| RoomsApi.LowerIsTrue | api/rooms.py:75-76 | the lower-cased text is `true` exactly for `true` in any mix of cases |
| RoomsApi.ListRooms | api/rooms.py:66-88 | the reply is the `skip`/`limit` page of the complete newest-first list of matching rooms; an unreadable window is 500 |
| RoomsApi.OtherAvailableTextListsUnavailable | api/rooms.py:75-77 | `available` other than `true` lists only unavailable rooms |
| RoomsApi.RouteOf | api/rooms.py:21-57 | there is no DELETE route: every method but OPTIONS, GET, POST and PUT is refused |
| RoomsApi.Handle | api/rooms.py:21-64 | OPTIONS, GET and unknown methods answer as `Preflight`, `ListRooms` and 405 with nothing changed; POST and PUT do exactly what `CreateDone` and `UpdateDone` state; an unreadable body is 500 |
| GuestsApi.LoadGuest | api/guests.py:7-12 | a body is accepted exactly when name, a valid email and phone are present and there is no other key; absent and null optional fields store null |
| GuestsApi.HandleCreate | api/guests.py:95-125 | through `CreateDone`: a used email is refused with nothing written, an unused one inserts the row; emails stay unique |
| GuestsApi.HandleDelete | api/guests.py:127-155 | through `DeleteDone`: a guest with any booking is never deleted; otherwise exactly that id is removed |
| GuestsApi.MatchesSearchIff | api/guests.py:80-85 | a guest matches exactly when the search text occurs, ignoring case, in name, email or phone |
| GuestsApi.ListGuests | api/guests.py:75-93 | the reply is the `skip`/`limit` page of the complete newest-first list of matching guests; an unreadable window is 500 |
| GuestsApi.RouteOf | api/guests.py:43-64 | there is no PUT route: every method but OPTIONS, GET, POST and DELETE is refused |
| GuestsApi.Handle | api/guests.py:29-74 | OPTIONS, GET and unknown methods answer as `Preflight`, `ListGuests` and 405 with nothing changed; POST and DELETE do exactly what `CreateDone` and `DeleteDone` state; an unreadable body is 500 |
| Dashboard.Insert | static/js/app.js:696 | inserting into a newest-first list keeps it newest first and adds exactly the one booking |
| Dashboard.NoneNewerThanHead | static/js/app.js:696 | nothing inserted behind the head of a sorted list is newer than it |
| Dashboard.SortNewestFirst | static/js/app.js:696 | the same bookings, newest first |
| Dashboard.SortKeepsSorted | static/js/app.js:695-697 | sorting an already sorted list changes nothing |
| Dashboard.OccupancyRate | static/js/app.js:693 | the percentage is between 0 and 100 and is the occupied share rounded to the nearest integer, 0 without rooms |
| Dashboard.OccupancyExtremes | static/js/app.js:693 | no occupied room gives 0, all rooms occupied give 100 |
| Dashboard.StatsOf | static/js/app.js:687-708 | the counts are the list lengths and filtered counts; the occupancy rate is `OccupancyRate` of the total and available rooms; the recent list is the newest `min(5, n)` bookings |
| Dashboard.RecentAreNewest | static/js/app.js:695-697 | no booking left out of the recent list is newer than one in it |
| Dashboard.App.constructor | static/js/app.js:6-10 | the app starts with empty lists |
| Dashboard.App.CalculateStats | static/js/app.js:687-708 | the figures of the lists, with the bookings sorted in place as a side effect |
| Dashboard.App.LoadDashboard | static/js/app.js:97-101 | the loaded lists are stored and their figures computed |
| Dashboard.StatsTwice | static/js/app.js:687-708 | computing the figures twice gives the same recent bookings |
| Dashboard.Actions | static/js/app.js:369-381 | `booked` offers Check In and Cancel, `checked_in` Check Out, every other status nothing |
| Dashboard.ButtonsMatchGuards | static/js/app.js:369-381 | each button is offered exactly when the endpoint it calls accepts the booking's status |

## Left out

- The network, `fetch` and the interleaving of asynchronous calls: a call's
  dispatch and its settlement are separate method calls.
- The DOM, modals, the loading overlay, the toast's display timing and every
  page-rendering method of the app, except the action buttons.
- `CurrencyUtils` and the revenue sum: they are floating-point formatting and
  addition.
- `DateUtils` formatting and `new Date` parsing: dates are given as
  millisecond or day numbers, and an unparseable date (NaN) is not modelled.
- Dashboard.OccupancyRate: computed on exact rationals; the floating-point
  product in `Math.round` can round a value lying just below a half
  differently.
- Dashboard.SortNewestFirst: the order among bookings with equal timestamps is
  not stated.
- Common.ParseInt: Python's `int()` also accepts surrounding whitespace and
  digit-group underscores, which are not modelled.
- Common.Lower: ASCII letters only; Unicode case mapping is not modelled.
- GuestsApi.LoadGuest: marshmallow's email validator is approximated by the
  client's email check.
- GuestsApi.MatchesSearchIff: `ilike` wildcards (`%`, `_`) and the `or_`
  filter syntax inside the search text are not modelled.
- BookingsApi.LoadBooking: marshmallow's type coercion (`"3"` read as 3) and
  JSON values of the wrong type or null are not modelled; a field is either
  present with its value or absent. `total_amount` is a `fields.Float` held
  here as a whole number, so an amount such as 89.99 is not representable.
- RoomsApi.LoadRoom: `price_per_night` is a `fields.Float` held here as a
  whole number, so a price such as 89.99 is not representable;
  marshmallow's coercion of `capacity` from text and JSON values of the
  wrong type or null are not modelled.
- Store.ReadId: ids are unbounded integers. An id outside the database's
  integer range, which makes the source's query raise (the handler's 500),
  is read as an ordinary id (a 404 when no row has it).
- Store.NewestFirst: orders by id, standing for `created_at`, which the
  database assigns in insertion order.
- The database's own failures (connection errors, timeouts) and the
  `details` text of a 500 reply; a database error's message is the opaque
  `DatabaseError`.
- The wording of HTML and JSON bodies, the CORS headers of each reply and the
  embedded guest and room objects of listed bookings: replies carry row ids.
- `ToastManager.getIcon` for keys inherited from `Object.prototype`
  (`getIcon('toString')`).
- The JSON body of a success reply of `Normalize` is kept as text, not parsed.
- ApiClient.Normalize: a failed response's body is either unparseable, an
  object with a string `error` member, or one without it. A body that
  parses to JSON `null` (where `error.error` throws a TypeError) and a
  truthy non-string `error` member (shown as `String(x)`, for example
  "[object Object]") are not represented; the API handlers only send
  string errors.
- ApiClient.HttpErrorWithoutBodyMessage: for the same reason it does not
  cover a failed response whose body is JSON `null`, which the source turns
  into a TypeError rather than the status line.
- ApiClient.Message: a successful JSON response whose body does not parse
  fails with the fixed text "Response body is not valid JSON", which stands
  for the browser's own `SyntaxError` message from `response.json()`; that
  wording is not modelled.
- ApiClient.Client.Settle / ApiClient.Client.Request: the class implements the
  intended behaviour of the two Findings rows (one notice per failed call,
  merged headers), not the code as written, which the `AsWritten` members
  capture.
- BookingsApi.Patch: the body cannot name `created_at` or `id`, which
  `update(data)` would also write; updating them is not modelled, since row
  ids stand for the creation order.
- BookingsApi.HandleUpdate: a body naming `created_at` or `id` is not
  representable (see `BookingsApi.Patch`).
- RoomsApi.PatchRoom: the body cannot name `created_at` or `id`, which
  `update(data)` would also write; updating them is not modelled, since row
  ids stand for the creation order.
- RoomsApi.HandleUpdate: a body naming `created_at` or `id` is not
  representable (see `RoomsApi.PatchRoom`).
- Debounce.Debouncer: the run log records the key whose timer fired, not the
  function that was passed; the page code does not call the debouncer.
- api/health.py and app.py: a fixed health reply and the local development
  server, which are not part of this model.

## Findings

| source | as written | input that shows it | evidently intended | confidence | as-written member | corrected member |
|---|---|---|---|---|---|---|
| static/js/utils.js:133-139 | `...options` is spread after `headers`, so a caller's `headers` replaces the merged set | `request('/guests', {headers: {Authorization: 'Bearer t'}})` sends no Content-Type | the caller's headers extend the JSON Content-Type | not executed; no caller in the repository passes headers | ApiClient.AsWrittenHeadersDropContentType | ApiClient.ConfigHeaders |
| static/js/utils.js:105-129 | `return requestPromise` inside `try` without `await`, so a failed call never reaches the `catch` that shows the error toast | a 404 answered with `{"error":"Guest not found"}` | every failed call is reported once, as the pages' comments "Error already handled by API client" (static/js/app.js:556-557) assume | not executed | ApiClient.AsWrittenHttpErrorIsSilent | ApiClient.SettleNotices |
