// The office search shared by the two location handlers
// (src/bot/routers/location.py and its older copy in
// src/bot/routers/currency.py): the organizations and their offices, the
// filters applied to them, the open-now test against schedule rows, the
// arg-min by distance, and the per-user search state the callback handlers
// write. The great-circle distance and `get_best_rates_for_pair` are
// parameters of the model.

module OfficeMatcher {
  import opened Common
  import opened Records
  import opened BaseRepository
  import Keyboards
  import OfficeRepository

  /** The contents of the tables the search reads. */
  datatype World = World(organizations: seq<Record>, offices: seq<Record>, schedules: seq<Record>, rates: seq<Record>)

  /** An office with its organization attached (`office.organization = org`). */
  datatype Place = Place(office: Record, organization: Record)

  /** The first hundred active organizations in table order (`get_active_organizations()`). */
  function Listed(db: World): seq<Record>
  {
    Window(Filter(db.organizations, IsActiveRow), 0, 100)
  }

  // ----- the organization-type filter -----

  /** The attribute the handlers read with `getattr(o, "type", None)`. */
  const TypeField := Other("type")
  const AllowedTypes: set<Value> := {VStr("Bank"), VStr("MicrofinanceOrganization")}

  predicate TypeAllowed(org: Record)
  {
    Col(org, TypeField) in AllowedTypes
  }

  /** The organization model has no `type` column, so no stored organization passes the filter. */
  lemma StoredOrganizationsUntyped(t: Table)
    requires t.Valid() && t.schema == OrganizationColumns
    ensures forall o :: o in t.rows ==> !TypeAllowed(o)
    ensures Filter(t.rows, TypeAllowed) == []
  {
    forall o | o in t.rows ensures !TypeAllowed(o) {
      var i :| 0 <= i < |t.rows| && t.rows[i] == o;
      assert RowOk(t.rows[i], t.schema, t.nextId);
      assert TypeField !in OrganizationColumns;
    }
    FilterEmpty(t.rows, TypeAllowed);
  }

  // ----- offices of the organizations -----

  function Attach(offices: seq<Record>, org: Record): (r: seq<Place>)
    ensures |r| == |offices| && forall i :: 0 <= i < |offices| ==> r[i] == Place(offices[i], org)
  {
    seq(|offices|, i requires 0 <= i < |offices| => Place(offices[i], org))
  }

  /** Every office of every organization, organization by organization, each with its organization. */
  function PlacesOf(offices: seq<Record>, orgs: seq<Record>): seq<Place>
    decreases |orgs|
  {
    if orgs == [] then []
    else
      var org := orgs[|orgs| - 1];
      PlacesOf(offices, orgs[..|orgs| - 1]) + Attach(Filter(offices, ColumnIs(OrganizationId, Col(org, Id))), org)
  }

  /** A place pairs a stored office with one of the organizations, and the office belongs to it. */
  lemma {:induction false} PlacesOfMembers(offices: seq<Record>, orgs: seq<Record>)
    ensures forall p :: p in PlacesOf(offices, orgs) ==>
              (p.organization in orgs && p.office in offices && Col(p.office, OrganizationId) == Col(p.organization, Id))
    ensures orgs == [] ==> PlacesOf(offices, orgs) == []
    decreases |orgs|
  {
    if orgs != [] {
      var init := orgs[..|orgs| - 1];
      PlacesOfMembers(offices, init);
      assert forall o :: o in init ==> o in orgs;
    }
  }

  /** The offices loop of both location handlers: each organization's offices, with the organization
      attached. */
  method CollectPlaces(offices: Table, orgs: seq<Record>) returns (places: seq<Place>)
    ensures places == PlacesOf(offices.rows, orgs)
  {
    places := [];
    for k := 0 to |orgs|
      invariant places == PlacesOf(offices.rows, orgs[..k])
    {
      assert orgs[..k + 1][..k] == orgs[..k];
      var orgOffices := OfficeRepository.GetByOrganization(offices, Col(orgs[k], Id));
      places := places + Attach(orgOffices, orgs[k]);
    }
    assert orgs[..|orgs|] == orgs;
  }

  /** An office of a listed organization of an allowed type belongs to an active organization of an
      allowed type. */
  lemma TypedPlaces(db: World)
    ensures forall p :: p in PlacesOf(db.offices, Filter(Listed(db), TypeAllowed)) ==>
              (p.office in db.offices && Col(p.office, OrganizationId) == Col(p.organization, Id)
               && TypeAllowed(p.organization) && IsActiveRow(p.organization))
  {
    PlacesOfMembers(db.offices, Filter(Listed(db), TypeAllowed));
    var active := Filter(db.organizations, IsActiveRow);
    assert forall o :: o in Listed(db) ==> o in active by {
      forall o | o in Listed(db) ensures o in active { var k :| 0 <= k < |Listed(db)| && Listed(db)[k] == o; }
    }
  }

  // ----- the office-name filter -----

  /** An office's name as text (the model's name column is a required string). */
  function NameText(office: Record): string
  {
    match Col(office, Name)
    case VStr(n) => n
    case _ => ""
  }

  /** Offices named "express" or "pawn", in any letter case, are dropped; the comparison is with the
      whole name, not a substring. */
  predicate NameAllowed(p: Place)
  {
    Lower(NameText(p.office)) != "express" && Lower(NameText(p.office)) != "pawn"
  }

  /** A name of another length than "express" and "pawn" is never dropped, so "Express Exchange" stays;
      upper-case variants of the two words are dropped. */
  lemma NameExclusionIsExact(p: Place)
    ensures |NameText(p.office)| != 7 && |NameText(p.office)| != 4 ==> NameAllowed(p)
    ensures NameText(p.office) in {"EXPRESS", "Express", "PAWN", "Pawn"} ==> !NameAllowed(p)
  {
    var n := NameText(p.office);
    if n == "EXPRESS" || n == "Express" {
      assert Lower(n) == "express";
    } else if n == "PAWN" || n == "Pawn" {
      assert Lower(n) == "pawn";
    }
  }

  // ----- open now -----

  /** A schedule row covering this weekday and minute: its day, and opens_at <= minute < closes_at. */
  predicate OpenRow(s: Record, weekday: int, minute: int)
  {
    Col(s, Day) == VInt(weekday) && Col(s, OpensAt).VInt? && Col(s, ClosesAt).VInt?
    && Col(s, OpensAt).i <= minute < Col(s, ClosesAt).i
  }

  predicate OpenAt(schedules: seq<Record>, weekday: int, minute: int)
  {
    exists s :: s in schedules && OpenRow(s, weekday, minute)
  }

  /** The schedule loop: stops at the first row covering the moment. */
  method CheckOpen(schedules: seq<Record>, weekday: int, minute: int) returns (isOpen: bool)
    ensures isOpen <==> OpenAt(schedules, weekday, minute)
  {
    isOpen := false;
    for i := 0 to |schedules|
      invariant !isOpen
      invariant forall k :: 0 <= k < i ==> !OpenRow(schedules[k], weekday, minute)
    {
      var sched := schedules[i];
      if Col(sched, Day) == VInt(weekday) && Col(sched, OpensAt).VInt? && Col(sched, ClosesAt).VInt?
         && Col(sched, OpensAt).i <= minute < Col(sched, ClosesAt).i
      {
        assert OpenRow(sched, weekday, minute) && sched in schedules;
        isOpen := true;
        break;
      }
    }
  }

  /** The schedules of an office (`get_by_office_id(office.id)`). */
  function SchedulesOf(db: World, office: Record): seq<Record>
  {
    Filter(db.schedules, ColumnIs(OfficeId, Col(office, Id)))
  }

  function IsOpenPlace(db: World, weekday: int, minute: int): Place -> bool
  {
    (p: Place) => OpenAt(SchedulesOf(db, p.office), weekday, minute)
  }

  /** `open_status_map`: office id to open-now, each place in turn. */
  function StatusMap(db: World, places: seq<Place>, weekday: int, minute: int): map<Value, bool>
    decreases |places|
  {
    if places == [] then map[]
    else
      var p := places[|places| - 1];
      StatusMap(db, places[..|places| - 1], weekday, minute)[Col(p.office, Id) := IsOpenPlace(db, weekday, minute)(p)]
  }

  /** Every place has an entry, and it tells whether the place is open now. */
  lemma {:induction false} StatusOfPlaces(db: World, places: seq<Place>, weekday: int, minute: int)
    ensures forall p :: p in places ==>
              (Col(p.office, Id) in StatusMap(db, places, weekday, minute)
               && StatusMap(db, places, weekday, minute)[Col(p.office, Id)] == IsOpenPlace(db, weekday, minute)(p))
    decreases |places|
  {
    if places != [] {
      var init := places[..|places| - 1];
      StatusOfPlaces(db, init, weekday, minute);
      assert forall p :: p in places ==> p in init || p == places[|places| - 1];
    }
  }

  // ----- best rates and the nearest office -----

  /** The organization of the place is named in the best-rate result. */
  function InBest(names: set<string>): Place -> bool
  {
    (p: Place) => Col(p.organization, Name).VStr? && Col(p.organization, Name).s in names
  }

  /** Python `min(s, key=key)`: the first element whose key no element beats. */
  function FirstMin<T>(s: seq<T>, key: T -> real): (i: nat)
    requires s != []
    ensures i < |s|
    ensures forall j :: 0 <= j < |s| ==> key(s[i]) <= key(s[j])
    ensures forall j :: 0 <= j < i ==> key(s[j]) > key(s[i])
    decreases |s|
  {
    if |s| == 1 then 0
    else
      var i := FirstMin(s[..|s| - 1], key);
      if key(s[|s| - 1]) < key(s[i]) then |s| - 1 else i
  }

  function OfficeDistance(distance: Record -> real): Place -> real
  {
    (p: Place) => distance(p.office)
  }

  /** The nearest office among the chosen ones is no farther than any of them. */
  lemma NearestOfChosen(chosen: seq<Place>, distance: Record -> real)
    requires chosen != []
    ensures var p := chosen[FirstMin(chosen, OfficeDistance(distance))];
            forall q :: q in chosen ==> distance(p.office) <= distance(q.office)
  {
    var i := FirstMin(chosen, OfficeDistance(distance));
    forall q | q in chosen ensures distance(chosen[i].office) <= distance(q.office) {
      var j :| 0 <= j < |chosen| && chosen[j] == q;
      assert OfficeDistance(distance)(chosen[i]) <= OfficeDistance(distance)(chosen[j]);
    }
  }

  // ----- the per-user search state -----

  /** A value stored in a user's search state: a text or a flag. */
  datatype StateValue = Text(s: string) | Flag(b: bool)
  type SearchState = map<string, StateValue>

  /** Python truthiness of the Telegram user id (absent or 0 is false). */
  predicate KnownUser(userId: Option<int>)
  {
    userId.Some? && userId.value != 0
  }

  /** `state.get(key, default)` for a text entry. */
  function TextOr(s: SearchState, key: string, default: string): string
  {
    if key in s && s[key].Text? then s[key].s else default
  }

  /** The currency pair of a best-rate search: sell defaults to "USD", get to "GEL". */
  function PairOf(s: SearchState): (string, string)
  {
    (TextOr(s, "sell_currency", "USD"), TextOr(s, "get_currency", "GEL"))
  }

  predicate BestRateMode(s: SearchState)
  {
    "mode" in s && s["mode"] == Text("find_best_rate_office")
  }

  /** `state.get("open_only") is True`. */
  predicate OpenOnly(s: SearchState)
  {
    "open_only" in s && s["open_only"] == Flag(true)
  }

  /** `user_search_state[user_id] = {"mode": mode}` for a known user. */
  function ResetMode(states: map<int, SearchState>, userId: Option<int>, mode: string): (r: map<int, SearchState>)
    ensures KnownUser(userId) ==> userId.value in r && r[userId.value].Keys == {"mode"} && r[userId.value]["mode"] == Text(mode)
    ensures forall u :: u in states && !(KnownUser(userId) && u == userId.value) ==> u in r && r[u] == states[u]
    ensures r.Keys == states.Keys + (if KnownUser(userId) then {userId.value} else {})
  {
    if KnownUser(userId) then states[userId.value := map["mode" := Text(mode)]] else states
  }

  /** `user_search_state.setdefault(user_id, default)[key] = v` for a known user. */
  function SetKey(states: map<int, SearchState>, userId: Option<int>, default: SearchState, key: string, v: StateValue)
    : (r: map<int, SearchState>)
    ensures KnownUser(userId) ==> userId.value in r && key in r[userId.value] && r[userId.value][key] == v
    ensures KnownUser(userId) && userId.value in states ==>
              (forall k :: k in states[userId.value] && k != key ==> k in r[userId.value] && r[userId.value][k] == states[userId.value][k])
    ensures KnownUser(userId) && userId.value !in states ==>
              (forall k :: k in default && k != key ==> k in r[userId.value] && r[userId.value][k] == default[k])
    ensures forall u :: u in states && !(KnownUser(userId) && u == userId.value) ==> u in r && r[u] == states[u]
    ensures r.Keys == states.Keys + (if KnownUser(userId) then {userId.value} else {})
  {
    if KnownUser(userId) then
      var s := if userId.value in states then states[userId.value] else default;
      states[userId.value := s[key := v]]
    else states
  }

  /** The pair `handle_find_best_get_currency` reads from "find_best_get_currency:S:G": the two
      currencies when the data has exactly three parts, otherwise USD and GEL. */
  function PairFromCallback(data: string): (pair: (string, string))
    ensures |Split(data, ':')| == 3 ==> pair == (Split(data, ':')[1], Split(data, ':')[2])
    ensures |Split(data, ':')| != 3 ==> pair == ("USD", "GEL")
  {
    var parts := if data == "" then [] else Split(data, ':');
    if |parts| == 3 then (parts[1], parts[2]) else ("USD", "GEL")
  }

  /** The keyboard's callback data for a pair of currencies without ':' gives that pair back. */
  lemma PairRoundTrip(sell: string, get: string)
    requires ':' !in sell && ':' !in get
    ensures PairFromCallback(Keyboards.CallbackData("find_best_get_currency:" + sell, get)) == (sell, get)
  {
    Keyboards.PairCallbackParts(sell, get);
  }

  /** No user's state holds a get currency. */
  predicate NoGetCurrency(states: map<int, SearchState>)
  {
    forall u :: u in states ==> "get_currency" !in states[u]
  }

  /** Resetting the mode and setting any other key keep every state free of a get currency. */
  lemma TransitionsKeepNoGetCurrency(states: map<int, SearchState>, userId: Option<int>, mode: string,
                                     default: SearchState, key: string, v: StateValue)
    requires NoGetCurrency(states) && "get_currency" !in default && key != "get_currency"
    ensures NoGetCurrency(ResetMode(states, userId, mode))
    ensures NoGetCurrency(SetKey(states, userId, default, key, v))
  {
    var r := SetKey(states, userId, default, key, v);
    forall u | u in r ensures "get_currency" !in r[u] {
      if KnownUser(userId) && u == userId.value {
        var s := if u in states then states[u] else default;
        assert r[u] == s[key := v];
      }
    }
  }

  /** Without a stored get currency, a best-rate search always asks for GEL. */
  lemma GetDefaultsToGel(states: map<int, SearchState>, u: int)
    requires NoGetCurrency(states) && u in states
    ensures PairOf(states[u]).1 == "GEL"
  {
  }
}
