// The location search of src/bot/routers/location.py: the callback handlers
// that record what a user is searching for, and `handle_location_message`,
// which filters the offices and answers with the nearest one. The clock
// (weekday and minute in Tbilisi), the user's distance to an office and the
// organization names `get_best_rates_for_pair` returns are parameters.

module LocationRouter {
  import opened Common
  import opened Records
  import opened BaseRepository
  import opened OfficeMatcher
  import OrganizationRepository
  import OfficeRepository
  import ScheduleRepository
  import AsyncRateRepository
  import CurrencyService
  import RatesRouter

  /** What `handle_location_message` answers. */
  datatype Reply =
    | CouldNotDetermine
    | SessionExpired
    | NoOfficesFound
    | NoneOpen
    | NoBestRates
    | NearestOffice(office: Record, organization: Record, open: bool, rates: seq<Record>, schedules: seq<Record>)

  /** The offices of the typed active organizations whose name is not excluded. */
  function Found(db: World): seq<Place>
  {
    Filter(PlacesOf(db.offices, Filter(Listed(db), TypeAllowed)), NameAllowed)
  }

  /** Only the open ones when the user asked for open offices. */
  function Kept(db: World, s: SearchState, found: seq<Place>, weekday: int, minute: int): seq<Place>
  {
    if OpenOnly(s) then Filter(found, IsOpenPlace(db, weekday, minute)) else found
  }

  /** Only those of organizations with a best rate for the pair, in best-rate mode. */
  function Chosen(s: SearchState, kept: seq<Place>, bestNames: (string, string) -> set<string>): seq<Place>
  {
    if BestRateMode(s) then Filter(kept, InBest(bestNames(PairOf(s).0, PairOf(s).1))) else kept
  }

  /** The newest ten rates of an office. */
  function NewestOf(db: World, office: Record): seq<Record>
  {
    CurrencyService.NewestRates(CurrencyService.Snapshot(db.organizations, db.offices, db.rates), office)
  }

  /** The answer about the chosen office; a missing status reads as closed. */
  function Answer(db: World, p: Place, status: map<Value, bool>): Reply
  {
    var id := Col(p.office, Id);
    NearestOffice(p.office, p.organization, id in status && status[id], NewestOf(db, p.office), SchedulesOf(db, p.office))
  }

  /** The search once the user and the state are known: filter, then the nearest office. */
  function SearchReply(db: World, s: SearchState, weekday: int, minute: int,
                       distance: Record -> real, bestNames: (string, string) -> set<string>): Reply
  {
    var found := Found(db);
    if found == [] then NoOfficesFound
    else
      var kept := Kept(db, s, found, weekday, minute);
      if kept == [] then NoneOpen
      else
        var chosen := Chosen(s, kept, bestNames);
        if chosen == [] then NoBestRates
        else Answer(db, chosen[FirstMin(chosen, OfficeDistance(distance))], StatusMap(db, found, weekday, minute))
  }

  /** `handle_location_message`, decided on the tables and the stored states. */
  function LocationReply(db: World, states: map<int, SearchState>, userId: Option<int>, hasLocation: bool,
                         weekday: int, minute: int, distance: Record -> real, bestNames: (string, string) -> set<string>): Reply
  {
    if !KnownUser(userId) || !hasLocation then CouldNotDetermine
    else if userId.value !in states then SessionExpired
    else SearchReply(db, states[userId.value], weekday, minute, distance, bestNames)
  }

  /** Without a stored state the search stops with "Session expired"; without a user or a location
      it stops before looking. */
  lemma NoStateExpires(db: World, states: map<int, SearchState>, userId: Option<int>, hasLocation: bool,
                       weekday: int, minute: int, distance: Record -> real, bestNames: (string, string) -> set<string>)
    ensures !KnownUser(userId) || !hasLocation ==> LocationReply(db, states, userId, hasLocation, weekday, minute, distance, bestNames) == CouldNotDetermine
    ensures KnownUser(userId) && hasLocation && userId.value !in states ==>
              LocationReply(db, states, userId, hasLocation, weekday, minute, distance, bestNames) == SessionExpired
  {
  }

  /** An office that reaches the filters belongs to an active organization of an allowed type, and
      its name is not excluded. */
  lemma FoundFacts(db: World)
    ensures forall p :: p in Found(db) ==>
              (p.office in db.offices && Col(p.office, OrganizationId) == Col(p.organization, Id)
               && TypeAllowed(p.organization) && IsActiveRow(p.organization) && NameAllowed(p))
  {
    TypedPlaces(db);
  }

  /** An office left after the open and best-rate filters is one of the offices found, open now
      when open offices were asked for, and of a best-rate organization in best-rate mode. */
  lemma ChosenFacts(db: World, s: SearchState, found: seq<Place>, weekday: int, minute: int,
                    bestNames: (string, string) -> set<string>)
    ensures forall p :: p in Chosen(s, Kept(db, s, found, weekday, minute), bestNames) ==>
              (p in found && (OpenOnly(s) ==> IsOpenPlace(db, weekday, minute)(p))
               && (BestRateMode(s) ==> InBest(bestNames(PairOf(s).0, PairOf(s).1))(p)))
  {
  }

  /** The chosen office passed every filter, belongs to its organization, and no office left after
      the filters is strictly nearer; with open offices asked for, it is open now. */
  lemma NearestIsClosest(db: World, states: map<int, SearchState>, userId: Option<int>, hasLocation: bool,
                         weekday: int, minute: int, distance: Record -> real, bestNames: (string, string) -> set<string>)
    ensures var reply := LocationReply(db, states, userId, hasLocation, weekday, minute, distance, bestNames);
            reply.NearestOffice? ==>
              var s := states[userId.value];
              var chosen := Chosen(s, Kept(db, s, Found(db), weekday, minute), bestNames);
              var p := Place(reply.office, reply.organization);
              p in chosen
              && (forall q :: q in chosen ==> distance(reply.office) <= distance(q.office))
              && reply.office in db.offices && Col(reply.office, OrganizationId) == Col(reply.organization, Id)
              && TypeAllowed(reply.organization) && IsActiveRow(reply.organization) && NameAllowed(p)
              && (OpenOnly(s) ==> reply.open)
              && (BestRateMode(s) ==> InBest(bestNames(PairOf(s).0, PairOf(s).1))(p))
  {
    var reply := LocationReply(db, states, userId, hasLocation, weekday, minute, distance, bestNames);
    if reply.NearestOffice? {
      var s := states[userId.value];
      var found := Found(db);
      var chosen := Chosen(s, Kept(db, s, found, weekday, minute), bestNames);
      assert chosen != [];
      var p := chosen[FirstMin(chosen, OfficeDistance(distance))];
      assert reply == Answer(db, p, StatusMap(db, found, weekday, minute));
      assert p in chosen;
      FoundFacts(db);
      ChosenFacts(db, s, found, weekday, minute, bestNames);
      StatusOfPlaces(db, found, weekday, minute);
      NearestOfChosen(chosen, distance);
    }
  }

  /** With no organization carrying an allowed type (the organization model has no type column), every
      search that gets past the user and state checks answers "No offices found." */
  lemma UntypedFindsNothing(db: World, states: map<int, SearchState>, userId: Option<int>, hasLocation: bool,
                            weekday: int, minute: int, distance: Record -> real, bestNames: (string, string) -> set<string>)
    requires forall o :: o in db.organizations ==> !TypeAllowed(o)
    ensures LocationReply(db, states, userId, hasLocation, weekday, minute, distance, bestNames)
            in {CouldNotDetermine, SessionExpired, NoOfficesFound}
  {
    var active := Filter(db.organizations, IsActiveRow);
    assert forall o :: o in Listed(db) ==> o in active by {
      forall o | o in Listed(db) ensures o in active { var k :| 0 <= k < |Listed(db)| && Listed(db)[k] == o; }
    }
    FilterEmpty(Listed(db), TypeAllowed);
    PlacesOfMembers(db.offices, []);
  }

  class LocationRouter {
    /** `user_search_state`: user id to that user's search. */
    var userSearchState: map<int, SearchState>
    const organizations: Table
    const offices: Table
    const schedules: Table
    const rates: Table

    constructor(organizations: Table, offices: Table, schedules: Table, rates: Table)
      ensures userSearchState == map[]
      ensures this.organizations == organizations && this.offices == offices
      ensures this.schedules == schedules && this.rates == rates
    {
      userSearchState := map[];
      this.organizations := organizations;
      this.offices := offices;
      this.schedules := schedules;
      this.rates := rates;
    }

    function Current(): World
      reads organizations, offices, schedules, rates
    {
      World(organizations.rows, offices.rows, schedules.rows, rates.rows)
    }

    /** In a real organization table no organization passes the type filter, so every search that
        gets past the user and state checks answers "No offices found." */
    lemma SearchFindsNothing(userId: Option<int>, hasLocation: bool, weekday: int, minute: int,
                             distance: Record -> real, bestNames: (string, string) -> set<string>)
      requires organizations.Valid() && organizations.schema == OrganizationColumns
      ensures LocationReply(Current(), userSearchState, userId, hasLocation, weekday, minute, distance, bestNames)
              in {CouldNotDetermine, SessionExpired, NoOfficesFound}
    {
      StoredOrganizationsUntyped(organizations);
      UntypedFindsNothing(Current(), userSearchState, userId, hasLocation, weekday, minute, distance, bestNames);
    }

    /** `handle_find_best_rate_office`: the user's search restarts in best-rate mode. */
    method HandleFindBestRateOffice(userId: Option<int>)
      modifies this
      ensures userSearchState == ResetMode(old(userSearchState), userId, "find_best_rate_office")
    {
      if KnownUser(userId) {
        userSearchState := userSearchState[userId.value := map["mode" := Text("find_best_rate_office")]];
      }
    }

    /** `handle_find_nearest_office`: the user's search restarts in nearest-office mode. */
    method HandleFindNearestOffice(userId: Option<int>)
      modifies this
      ensures userSearchState == ResetMode(old(userSearchState), userId, "find_nearest_office")
    {
      if KnownUser(userId) {
        userSearchState := userSearchState[userId.value := map["mode" := Text("find_nearest_office")]];
      }
    }

    /** `handle_filter_open_only` and `handle_filter_all_offices`: only `open_only` changes. */
    method HandleOpenFilter(userId: Option<int>, openOnly: bool)
      modifies this
      ensures userSearchState == SetKey(old(userSearchState), userId, map[], "open_only", Flag(openOnly))
    {
      if KnownUser(userId) {
        var s := if userId.value in userSearchState then userSearchState[userId.value] else map[];
        userSearchState := userSearchState[userId.value := s["open_only" := Flag(openOnly)]];
      }
    }

    /** `handle_find_best_sell_currency`: stores the sell currency (creating a best-rate search when
        there is none) and offers the other currencies under the prefix "find_best_get_currency:S". */
    method HandleFindBestSellCurrency(userId: Option<int>, data: string) returns (options: seq<string>, prefix: string)
      requires StartsWith(data, "find_best_sell_currency:")
      modifies this
      ensures var sell := RatesRouter.CallbackArgument(data, "find_best_sell_currency");
              && userSearchState == SetKey(old(userSearchState), userId, map["mode" := Text("find_best_rate_office")], "sell_currency", Text(sell))
              && options == RatesRouter.GetOptions(sell) && prefix == "find_best_get_currency:" + sell
    {
      var sell := RatesRouter.CallbackArgument(data, "find_best_sell_currency");
      options := RatesRouter.GetOptions(sell);
      if KnownUser(userId) {
        var s := if userId.value in userSearchState then userSearchState[userId.value] else map["mode" := Text("find_best_rate_office")];
        userSearchState := userSearchState[userId.value := s["sell_currency" := Text(sell)]];
      }
      prefix := "find_best_get_currency:" + sell;
    }

    /** One office more in the filter loop. */
    lemma ScanStep(db: World, places: seq<Place>, i: nat, weekday: int, minute: int)
      requires i < |places|
      ensures StatusMap(db, places[..i + 1], weekday, minute)
              == StatusMap(db, places[..i], weekday, minute)[Col(places[i].office, Id) := IsOpenPlace(db, weekday, minute)(places[i])]
      ensures Filter(places[..i + 1], IsOpenPlace(db, weekday, minute))
              == Filter(places[..i], IsOpenPlace(db, weekday, minute)) + (if IsOpenPlace(db, weekday, minute)(places[i]) then [places[i]] else [])
    {
      assert places[..i + 1][..i] == places[..i];
      FilterConcat(places[..i], [places[i]], IsOpenPlace(db, weekday, minute));
      assert places[..i + 1] == places[..i] + [places[i]];
    }

    /** The filter loop: every office's schedules, its open-now status, and the open offices. */
    method ScanSchedules(places: seq<Place>, weekday: int, minute: int) returns (status: map<Value, bool>, open: seq<Place>)
      ensures status == StatusMap(Current(), places, weekday, minute)
      ensures open == Filter(places, IsOpenPlace(Current(), weekday, minute))
    {
      status, open := map[], [];
      for i := 0 to |places|
        invariant status == StatusMap(Current(), places[..i], weekday, minute)
        invariant open == Filter(places[..i], IsOpenPlace(Current(), weekday, minute))
      {
        ScanStep(Current(), places, i, weekday, minute);
        var scheds := ScheduleRepository.GetByOfficeId(schedules, Col(places[i].office, Id));
        assert scheds == SchedulesOf(Current(), places[i].office);
        var isOpen := CheckOpen(scheds, weekday, minute);
        status := status[Col(places[i].office, Id) := isOpen];
        if isOpen {
          open := open + [places[i]];
        }
      }
      assert places[..|places|] == places;
    }

    /** The offices that reach the filters, read from the tables. */
    method FoundPlaces() returns (found: seq<Place>)
      ensures found == Found(Current())
    {
      var orgs := OrganizationRepository.GetActiveOrganizations(organizations, 0, 100);
      orgs := Filter(orgs, TypeAllowed);
      found := CollectPlaces(offices, orgs);
      found := Filter(found, NameAllowed);
    }

    /** The search for a known user with a stored state, read from the tables. */
    method Search(state: SearchState, weekday: int, minute: int,
                  distance: Record -> real, bestNames: (string, string) -> set<string>)
      returns (reply: Reply)
      ensures reply == SearchReply(Current(), state, weekday, minute, distance, bestNames)
    {
      var places := FoundPlaces();
      if places == [] {
        return NoOfficesFound;
      }
      var status, open := ScanSchedules(places, weekday, minute);
      ghost var found := places;
      if OpenOnly(state) {
        places := open;
        if places == [] {
          return NoneOpen;
        }
      }
      assert places == Kept(Current(), state, found, weekday, minute);
      if BestRateMode(state) {
        places := Filter(places, InBest(bestNames(PairOf(state).0, PairOf(state).1)));
        if places == [] {
          return NoBestRates;
        }
      }
      var nearest := places[FirstMin(places, OfficeDistance(distance))];
      reply := Describe(nearest, status);
    }

    /** The reply about the nearest office: its newest rates and its schedules. */
    method Describe(nearest: Place, status: map<Value, bool>) returns (reply: Reply)
      ensures reply == Answer(Current(), nearest, status)
    {
      var officeRates := AsyncRateRepository.GetRatesByOffice(rates, Col(nearest.office, Id), CurrencyService.RateLimit);
      var officeSchedules := ScheduleRepository.GetByOfficeId(schedules, Col(nearest.office, Id));
      var id := Col(nearest.office, Id);
      reply := NearestOffice(nearest.office, nearest.organization, id in status && status[id], officeRates, officeSchedules);
    }

    /** `handle_location_message`: the reply is decided on the tables and the stored state, and the
        user's state is removed only after an office was found. */
    method HandleLocation(userId: Option<int>, hasLocation: bool, weekday: int, minute: int,
                          distance: Record -> real, bestNames: (string, string) -> set<string>)
      returns (reply: Reply)
      modifies this
      ensures reply == LocationReply(Current(), old(userSearchState), userId, hasLocation, weekday, minute, distance, bestNames)
      ensures userSearchState == if reply.NearestOffice? then old(userSearchState) - {userId.value} else old(userSearchState)
    {
      if !KnownUser(userId) || !hasLocation {
        return CouldNotDetermine;
      }
      if userId.value !in userSearchState {
        return SessionExpired;
      }
      reply := Search(userSearchState[userId.value], weekday, minute, distance, bestNames);
      if reply.NearestOffice? {
        userSearchState := userSearchState - {userId.value};
      }
    }
  }
}
