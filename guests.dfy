/** The guests endpoint (api/guests.py): the guest schema, creation with a
    unique email, deletion guarded by the bookings that reference the guest,
    the case-insensitive search with paging, and the method dispatch of
    `handler`. */
module GuestsApi {
  import opened Common
  import opened Store
  import Validators

  // ---------------------------------------------------------------------------
  // Request bodies and the schema

  /** A JSON request body, key by key. For `name`, `email` and `phone`,
      `None` stands for an absent key or a JSON null alike; `address` and
      `id_proof` tell them apart (`Some(None)` is a null). */
  datatype GuestFields = GuestFields(
    name: Option<string>, email: Option<string>, phone: Option<string>,
    address: Option<Option<string>>, idProof: Option<Option<string>>,
    otherKeys: bool)

  datatype NewGuest = NewGuest(name: string, email: string, phone: string,
                               address: Option<string>, idProof: Option<string>)

  /** An absent optional key and a null one both store a null. */
  function Nullable(v: Option<Option<string>>): Option<string> {
    match v
    case Some(inner) => inner
    case None => None
  }

  /** `guest_schema.load(data)`: `name`, `email` and `phone` present and not
      null (an empty string is accepted), an email address that passes the
      email check, `address` and `id_proof` optional and nullable, no other key. */
  function LoadGuest(f: GuestFields): (r: Option<NewGuest>)
    ensures r.Some? ==>
      && f.name == Some(r.value.name) && f.email == Some(r.value.email) && f.phone == Some(r.value.phone)
      && Validators.ValidateEmail(r.value.email) && !f.otherKeys
    ensures r.Some? ==> r.value.address == Nullable(f.address) && r.value.idProof == Nullable(f.idProof)
    ensures (&& f.name.Some? && f.email.Some? && Validators.ValidateEmail(f.email.value)
             && f.phone.Some? && !f.otherKeys) ==> r.Some?
  {
    if f.name.Some? && f.email.Some? && Validators.ValidateEmail(f.email.value) && f.phone.Some? && !f.otherKeys
    then Some(NewGuest(f.name.value, f.email.value, f.phone.value, Nullable(f.address), Nullable(f.idProof)))
    else None
  }

  // ---------------------------------------------------------------------------
  // Handlers

  /** Some guest already uses this email, compared exactly. */
  predicate EmailTaken(guests: map<int, Guest>, email: string) {
    exists id :: id in guests && guests[id].email == email
  }

  /** No two guests share an email. */
  ghost predicate EmailsUnique(guests: map<int, Guest>) {
    forall a, b :: a in guests && b in guests && guests[a].email == guests[b].email ==> a == b
  }

  /** What `handle_create_guest` does: a valid body with an unused email
      becomes a new row; a used email is 400 with the table untouched. */
  twostate predicate CreateDone(db: Database, body: GuestFields, now: int, reply: Reply)
    reads db
  {
    match LoadGuest(body)
    case None => reply == Fail(400, "Validation failed") && unchanged(db)
    case Some(ng) =>
      if EmailTaken(old(db.guests), ng.email) then
        reply == Fail(400, "Guest with this email already exists") && unchanged(db)
      else
        && reply == Reply(201, Row(old(db.nextGuestId)))
        && db.guests == old(db.guests)[old(db.nextGuestId) :=
             Guest(ng.name, ng.email, ng.phone, ng.address, ng.idProof, now)]
        && db.nextGuestId == old(db.nextGuestId) + 1
        && db.rooms == old(db.rooms) && db.bookings == old(db.bookings)
        && db.nextRoomId == old(db.nextRoomId) && db.nextBookingId == old(db.nextBookingId)
  }

  /** `handle_create_guest`; creation keeps emails unique. */
  method HandleCreate(db: Database, body: GuestFields, now: int) returns (reply: Reply)
    requires db.Valid()
    modifies db
    ensures db.Valid()
    ensures CreateDone(db, body, now, reply)
    ensures EmailsUnique(old(db.guests)) ==> EmailsUnique(db.guests)
  {
    var loaded := LoadGuest(body);
    if loaded.None? {
      return Fail(400, "Validation failed");
    }
    var ng := loaded.value;
    if EmailTaken(db.guests, ng.email) {
      return Fail(400, "Guest with this email already exists");
    }
    var id := db.nextGuestId;
    db.guests := db.guests[id := Guest(ng.name, ng.email, ng.phone, ng.address, ng.idProof, now)];
    db.nextGuestId := id + 1;
    reply := Reply(201, Row(id));
  }

  /** Some booking, whatever its status, names this guest. */
  predicate HasBookings(bookings: map<int, Booking>, guestId: int) {
    exists id :: id in bookings && bookings[id].guestId == guestId
  }

  /** What `handle_delete_guest` does: refused while any booking references
      the guest; otherwise that one id is removed, and the reply is 200 whether
      or not a guest had it. An id that is not an integer makes the bookings
      query raise (the handler's 500). */
  twostate predicate DeleteDone(db: Database, params: Params, reply: Reply)
    reads db
  {
    match ReadId(params, "id")
    case Missing => reply == Fail(400, "Guest ID is required") && unchanged(db)
    case Malformed => reply == InternalError && unchanged(db)
    case Id(id) =>
      if HasBookings(old(db.bookings), id) then
        reply == Fail(400, "Cannot delete guest with existing bookings") && unchanged(db)
      else
        && reply == Reply(200, Notice("Guest deleted successfully"))
        && db.guests == old(db.guests) - {id}
        && db.rooms == old(db.rooms) && db.bookings == old(db.bookings)
        && db.nextRoomId == old(db.nextRoomId) && db.nextGuestId == old(db.nextGuestId)
        && db.nextBookingId == old(db.nextBookingId)
  }

  /** `handle_delete_guest`. */
  method HandleDelete(db: Database, params: Params) returns (reply: Reply)
    requires db.Valid()
    modifies db
    ensures db.Valid()
    ensures DeleteDone(db, params, reply)
  {
    match ReadId(params, "id")
    case Missing =>
      reply := Fail(400, "Guest ID is required");
    case Malformed =>
      reply := InternalError;
    case Id(id) =>
      if HasBookings(db.bookings, id) {
        return Fail(400, "Cannot delete guest with existing bookings");
      }
      db.guests := db.guests - {id};
      reply := Reply(200, Notice("Guest deleted successfully"));
  }

  // ---------------------------------------------------------------------------
  // Listing

  /** `name.ilike.%s%,email.ilike.%s%,phone.ilike.%s%`, read as a
      case-insensitive substring test on each of the three columns. */
  predicate MatchesSearch(g: Guest, search: string) {
    || Contains(Lower(g.name), Lower(search))
    || Contains(Lower(g.email), Lower(search))
    || Contains(Lower(g.phone), Lower(search))
  }

  /** A guest is found exactly when the search text occurs, ignoring letter
      case, somewhere in its name, email or phone. */
  lemma MatchesSearchIff(g: Guest, search: string)
    ensures MatchesSearch(g, search) <==>
      || (exists i :: OccursAt(Lower(g.name), Lower(search), i))
      || (exists i :: OccursAt(Lower(g.email), Lower(search), i))
      || (exists i :: OccursAt(Lower(g.phone), Lower(search), i))
  {
    ContainsIff(Lower(g.name), Lower(search));
    ContainsIff(Lower(g.email), Lower(search));
    ContainsIff(Lower(g.phone), Lower(search));
  }

  /** The search text given, `''` when the parameter is absent. */
  function SearchText(params: Params): string {
    if "search" in params then params["search"] else ""
  }

  /** `if search:` leaves the query unfiltered for an empty search. */
  predicate GuestSelected(g: Guest, search: string) {
    search == "" || MatchesSearch(g, search)
  }

  /** The search of a query, as the row test `NewestFirst` applies. */
  function GuestFilter(search: string): Guest -> bool {
    g => GuestSelected(g, search)
  }

  /** `handle_get_guests`: one page of the matching guests, newest first. The
      page is the window's slice of the full, complete and newest-first list
      of matching ids. */
  function ListGuests(db: Database, params: Params): (reply: Reply)
    reads db
    ensures reply.statusCode == 200 <==> ReadWindow(params).Some?
    ensures reply.statusCode != 200 ==> reply == InternalError
    ensures reply.statusCode == 200 ==>
      reply.body == Rows(Page(NewestFirst(db.guests, GuestFilter(SearchText(params)), db.nextGuestId),
                              ReadWindow(params).value))
    ensures reply.statusCode == 200 ==>
      && |reply.body.ids| <= ReadWindow(params).value.limit
      && (forall i :: 0 <= i < |reply.body.ids| ==>
            reply.body.ids[i] in db.guests && GuestSelected(db.guests[reply.body.ids[i]], SearchText(params)))
      && (forall i, j :: 0 <= i < j < |reply.body.ids| ==> reply.body.ids[i] > reply.body.ids[j])
  {
    match ReadWindow(params)
    case Some(w) =>
      var search := SearchText(params);
      Reply(200, Rows(Page(NewestFirst(db.guests, GuestFilter(search), db.nextGuestId), w)))
    case None => InternalError
  }

  // ---------------------------------------------------------------------------
  // Dispatch

  datatype Route = OptionsRoute | ListRoute | CreateRoute | DeleteRoute | UnknownRoute

  /** The branches of `handler`: there is no PUT branch, so PUT is refused with
      any method but GET, POST, DELETE and OPTIONS. */
  function RouteOf(verb: string): (r: Route)
    ensures r == OptionsRoute <==> verb == "OPTIONS"
    ensures r == ListRoute <==> verb == "GET"
    ensures r == CreateRoute <==> verb == "POST"
    ensures r == DeleteRoute <==> verb == "DELETE"
    ensures r == UnknownRoute <==> verb !in {"OPTIONS", "GET", "POST", "DELETE"}
  {
    if verb == "OPTIONS" then OptionsRoute
    else if verb == "GET" then ListRoute
    else if verb == "POST" then CreateRoute
    else if verb == "DELETE" then DeleteRoute
    else UnknownRoute
  }

  /** `handler(event, context)`; `body` is `None` when the request body is not
      valid JSON. */
  method Handle(db: Database, verb: string, params: Params, body: Option<GuestFields>, now: int)
    returns (reply: Reply)
    requires db.Valid()
    modifies db
    ensures db.Valid()
    ensures RouteOf(verb) == OptionsRoute ==> reply == Preflight && unchanged(db)
    ensures RouteOf(verb) == UnknownRoute ==> reply == NotAllowed && unchanged(db)
    ensures RouteOf(verb) == ListRoute ==> reply == ListGuests(db, params) && unchanged(db)
    ensures RouteOf(verb) == CreateRoute && body.None? ==> reply == InternalError && unchanged(db)
    ensures RouteOf(verb) == CreateRoute && body.Some? ==> CreateDone(db, body.value, now, reply)
    ensures RouteOf(verb) == DeleteRoute ==> DeleteDone(db, params, reply)
    ensures reply.statusCode in {200, 201, 400, 405, 500}
  {
    match RouteOf(verb)
    case OptionsRoute => reply := Preflight;
    case UnknownRoute => reply := NotAllowed;
    case ListRoute => reply := ListGuests(db, params);
    case CreateRoute =>
      if body.None? {
        reply := InternalError;
      } else {
        reply := HandleCreate(db, body.value, now);
      }
    case DeleteRoute => reply := HandleDelete(db, params);
  }
}
