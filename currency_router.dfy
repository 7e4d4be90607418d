// The older location search kept in src/bot/routers/currency.py: the callback
// handlers that record a best-rate search, and its own `handle_location_message`,
// which differs from the one in location.py: a missing state reads as empty,
// there is no name filter and no open-now filter, and the reply lists the
// office's newest rates. The distance and `get_best_rates_for_pair` are
// parameters, as in the location router.

module CurrencyRouter {
  import opened Common
  import opened Records
  import opened BaseRepository
  import opened OfficeMatcher
  import OrganizationRepository
  import AsyncRateRepository
  import CurrencyService
  import RatesRouter

  /** What this `handle_location_message` ends with. */
  datatype Reply =
    | CouldNotDetermine
    | NoOfficesFound
    | NoBestRates
    | NearestOffice(office: Record, organization: Record, rates: seq<Record>)
      /** The rendering of the rate lines raised before anything was sent. */
    | RenderFailed

  /** The offices of the typed active organizations (no name filter here). */
  function Found(db: World): seq<Place>
  {
    PlacesOf(db.offices, Filter(Listed(db), TypeAllowed))
  }

  /** Only those of organizations with a best rate for the pair, in best-rate mode. */
  function Chosen(s: SearchState, found: seq<Place>, bestNames: (string, string) -> set<string>): seq<Place>
  {
    if BestRateMode(s) then Filter(found, InBest(bestNames(PairOf(s).0, PairOf(s).1))) else found
  }

  /** `user_search_state.get(user_id, {})`. */
  function StateOf(states: map<int, SearchState>, u: int): SearchState
  {
    if u in states then states[u] else map[]
  }

  /** The nearest chosen office, once the user is known: `None` when the filters leave nothing, with
      the reply to send instead. */
  function Nearest(db: World, s: SearchState, distance: Record -> real, bestNames: (string, string) -> set<string>)
    : Result<Place, Reply>
  {
    var found := Found(db);
    if found == [] then Failure(NoOfficesFound)
    else
      var chosen := Chosen(s, found, bestNames);
      if chosen == [] then Failure(NoBestRates)
      else Success(chosen[FirstMin(chosen, OfficeDistance(distance))])
  }

  /** The newest ten rates of an office (`get_rates_by_office(nearest.id, limit=10)`). */
  function NewestOf(db: World, office: Record): seq<Record>
  {
    CurrencyService.NewestRates(CurrencyService.Snapshot(db.organizations, db.offices, db.rates), office)
  }

  /** The handler as written: a rate line reads `rate.buy` and `rate.sell`, attributes the rate model
      does not have, so an office with any rate ends in an error before the reply is sent. */
  function LocationReplyAsWritten(db: World, states: map<int, SearchState>, userId: Option<int>, hasLocation: bool,
                                  distance: Record -> real, bestNames: (string, string) -> set<string>): (r: Reply)
    ensures r.NearestOffice? ==> r.rates == []
  {
    if !KnownUser(userId) || !hasLocation then CouldNotDetermine
    else
      match Nearest(db, StateOf(states, userId.value), distance, bestNames)
      case Failure(reply) => reply
      case Success(p) =>
        var rates := NewestOf(db, p.office);
        if rates != [] then RenderFailed else NearestOffice(p.office, p.organization, rates)
  }

  /** The handler with the rate lines reading the rate's buy and sell columns: the nearest office
      is always answered with its newest rates. */
  function LocationReply(db: World, states: map<int, SearchState>, userId: Option<int>, hasLocation: bool,
                         distance: Record -> real, bestNames: (string, string) -> set<string>): Reply
  {
    if !KnownUser(userId) || !hasLocation then CouldNotDetermine
    else
      match Nearest(db, StateOf(states, userId.value), distance, bestNames)
      case Failure(reply) => reply
      case Success(p) => NearestOffice(p.office, p.organization, NewestOf(db, p.office))
  }

  /** The two handlers differ exactly when the nearest office has a rate: the one as written then
      fails, the corrected one lists the rates. */
  lemma RatesBreakReply(db: World, states: map<int, SearchState>, userId: Option<int>, hasLocation: bool,
                        distance: Record -> real, bestNames: (string, string) -> set<string>)
    ensures var fixed := LocationReply(db, states, userId, hasLocation, distance, bestNames);
            var written := LocationReplyAsWritten(db, states, userId, hasLocation, distance, bestNames);
            (written == RenderFailed <==> fixed.NearestOffice? && fixed.rates != [])
            && (written != RenderFailed ==> written == fixed)
            && fixed != RenderFailed
  {
  }

  /** A search that is answered lists at most ten rates, each a stored rate of the chosen office, and
      the office is a nearest one among those that passed the filters. */
  lemma NearestAnswered(db: World, states: map<int, SearchState>, userId: Option<int>, hasLocation: bool,
                        distance: Record -> real, bestNames: (string, string) -> set<string>)
    ensures var reply := LocationReply(db, states, userId, hasLocation, distance, bestNames);
            reply.NearestOffice? ==>
              var s := StateOf(states, userId.value);
              var chosen := Chosen(s, Found(db), bestNames);
              Place(reply.office, reply.organization) in chosen
              && (forall q :: q in chosen ==> distance(reply.office) <= distance(q.office))
              && reply.office in db.offices && Col(reply.office, OrganizationId) == Col(reply.organization, Id)
              && TypeAllowed(reply.organization) && IsActiveRow(reply.organization)
              && (BestRateMode(s) ==> InBest(bestNames(PairOf(s).0, PairOf(s).1))(Place(reply.office, reply.organization)))
              && |reply.rates| <= CurrencyService.RateLimit
              && (forall r :: r in reply.rates ==> r in db.rates && Col(r, OfficeId) == Col(reply.office, Id))
  {
    var reply := LocationReply(db, states, userId, hasLocation, distance, bestNames);
    if reply.NearestOffice? {
      var s := StateOf(states, userId.value);
      var found := Found(db);
      var chosen := Chosen(s, found, bestNames);
      assert chosen != [];
      var p := chosen[FirstMin(chosen, OfficeDistance(distance))];
      assert reply == NearestOffice(p.office, p.organization, NewestOf(db, p.office));
      assert p in found;
      TypedPlaces(db);
      NearestOfChosen(chosen, distance);
      CurrencyService.NewestAreStored(CurrencyService.Snapshot(db.organizations, db.offices, db.rates), p.office);
    }
  }

  /** Without an organization of an allowed type every search that has a user and a location answers
      "No offices found." */
  lemma UntypedFindsNothing(db: World, states: map<int, SearchState>, userId: Option<int>, hasLocation: bool,
                            distance: Record -> real, bestNames: (string, string) -> set<string>)
    requires forall o :: o in db.organizations ==> !TypeAllowed(o)
    ensures LocationReply(db, states, userId, hasLocation, distance, bestNames) in {CouldNotDetermine, NoOfficesFound}
    ensures LocationReplyAsWritten(db, states, userId, hasLocation, distance, bestNames) in {CouldNotDetermine, NoOfficesFound}
  {
    assert forall o :: o in Listed(db) ==> o in Filter(db.organizations, IsActiveRow) by {
      forall o | o in Listed(db) ensures o in Filter(db.organizations, IsActiveRow) {
        var k :| 0 <= k < |Listed(db)| && Listed(db)[k] == o;
      }
    }
    FilterEmpty(Listed(db), TypeAllowed);
    PlacesOfMembers(db.offices, []);
  }

  /** `handle_find_best_get_currency`: the pair it stores, creating a best-rate search when there is none. */
  function StorePair(states: map<int, SearchState>, userId: Option<int>, pair: (string, string)): (r: map<int, SearchState>)
    ensures KnownUser(userId) ==> userId.value in r && PairOf(r[userId.value]) == pair
    ensures KnownUser(userId) && userId.value !in states ==> BestRateMode(r[userId.value])
    ensures KnownUser(userId) && userId.value in states ==>
              (BestRateMode(r[userId.value]) <==> BestRateMode(states[userId.value]))
    ensures forall u :: u in states && !(KnownUser(userId) && u == userId.value) ==> u in r && r[u] == states[u]
    ensures r.Keys == states.Keys + (if KnownUser(userId) then {userId.value} else {})
  {
    var default := map["mode" := Text("find_best_rate_office")];
    var once := SetKey(states, userId, default, "sell_currency", Text(pair.0));
    SetKey(once, userId, default, "get_currency", Text(pair.1))
  }

  /** The pair a user picks on the keyboards reaches the state the location search reads. */
  lemma PickedPairIsSearched(states: map<int, SearchState>, userId: Option<int>, sell: string, get: string)
    requires KnownUser(userId) && ':' !in sell && ':' !in get
    ensures var r := StorePair(states, userId, PairFromCallback(Keyboards.CallbackData("find_best_get_currency:" + sell, get)));
            PairOf(StateOf(r, userId.value)) == (sell, get)
  {
    PairRoundTrip(sell, get);
  }

  class CurrencyRouter {
    /** `user_search_state` of this router (a separate dictionary from the location router's). */
    var userSearchState: map<int, SearchState>
    const organizations: Table
    const offices: Table
    const rates: Table

    constructor(organizations: Table, offices: Table, rates: Table)
      ensures userSearchState == map[]
      ensures this.organizations == organizations && this.offices == offices && this.rates == rates
    {
      userSearchState := map[];
      this.organizations := organizations;
      this.offices := offices;
      this.rates := rates;
    }

    /** The tables this handler reads; it reads no schedules. */
    function Current(): World
      reads organizations, offices, rates
    {
      World(organizations.rows, offices.rows, [], rates.rows)
    }

    /** In a real organization table no organization has a type, so every search with a user and a
        location answers "No offices found." */
    lemma SearchFindsNothing(userId: Option<int>, hasLocation: bool, distance: Record -> real,
                             bestNames: (string, string) -> set<string>)
      requires organizations.Valid() && organizations.schema == OrganizationColumns
      ensures LocationReply(Current(), userSearchState, userId, hasLocation, distance, bestNames) in {CouldNotDetermine, NoOfficesFound}
    {
      StoredOrganizationsUntyped(organizations);
      UntypedFindsNothing(Current(), userSearchState, userId, hasLocation, distance, bestNames);
    }

    /** `handle_find_nearest_office`: the search restarts in nearest-office mode. */
    method HandleFindNearestOffice(userId: Option<int>)
      modifies this
      ensures userSearchState == ResetMode(old(userSearchState), userId, "find_nearest_office")
    {
      if KnownUser(userId) {
        userSearchState := userSearchState[userId.value := map["mode" := Text("find_nearest_office")]];
      }
    }

    /** `handle_find_best_rate_office`: the search restarts in best-rate mode. */
    method HandleFindBestRateOffice(userId: Option<int>)
      modifies this
      ensures userSearchState == ResetMode(old(userSearchState), userId, "find_best_rate_office")
    {
      if KnownUser(userId) {
        userSearchState := userSearchState[userId.value := map["mode" := Text("find_best_rate_office")]];
      }
    }

    /** `handle_find_best_sell_currency`: stores the sell currency and offers the other currencies. */
    method HandleFindBestSellCurrency(userId: Option<int>, data: string) returns (options: seq<string>, prefix: string)
      requires StartsWith(data, "find_best_sell_currency:")
      modifies this
      ensures var sell := RatesRouter.CallbackArgument(data, "find_best_sell_currency");
              && userSearchState == SetKey(old(userSearchState), userId, map["mode" := Text("find_best_rate_office")], "sell_currency", Text(sell))
              && options == RatesRouter.GetOptions(sell) && prefix == "find_best_get_currency:" + sell
    {
      var sell := RatesRouter.CallbackArgument(data, "find_best_sell_currency");
      options := RatesRouter.GetOptions(sell);
      if KnownUser(userId) {
        var s := if userId.value in userSearchState then userSearchState[userId.value] else map["mode" := Text("find_best_rate_office")];
        userSearchState := userSearchState[userId.value := s["sell_currency" := Text(sell)]];
      }
      prefix := "find_best_get_currency:" + sell;
    }

    /** `handle_find_best_get_currency`: stores both currencies of "find_best_get_currency:S:G"
        (USD and GEL when the data does not have three parts) and returns them for the prompt. */
    method HandleFindBestGetCurrency(userId: Option<int>, data: string) returns (pair: (string, string))
      requires StartsWith(data, "find_best_get_currency:")
      modifies this
      ensures pair == PairFromCallback(data)
      ensures userSearchState == StorePair(old(userSearchState), userId, pair)
    {
      var parts := Split(data, ':');
      if |parts| == 3 {
        pair := (parts[1], parts[2]);
      } else {
        pair := ("USD", "GEL");
      }
      if KnownUser(userId) {
        var s := if userId.value in userSearchState then userSearchState[userId.value] else map["mode" := Text("find_best_rate_office")];
        s := s["sell_currency" := Text(pair.0)];
        s := s["get_currency" := Text(pair.1)];
        userSearchState := userSearchState[userId.value := s];
      }
    }

    /** The filters, read from the tables: the nearest chosen office or the reply to send instead. */
    method FindNearest(state: SearchState, distance: Record -> real, bestNames: (string, string) -> set<string>)
      returns (r: Result<Place, Reply>)
      ensures r == Nearest(Current(), state, distance, bestNames)
    {
      var orgs := OrganizationRepository.GetActiveOrganizations(organizations, 0, 100);
      orgs := Filter(orgs, TypeAllowed);
      var places := CollectPlaces(offices, orgs);
      if places == [] {
        return Failure(NoOfficesFound);
      }
      if BestRateMode(state) {
        places := Filter(places, InBest(bestNames(PairOf(state).0, PairOf(state).1)));
        if places == [] {
          return Failure(NoBestRates);
        }
      }
      r := Success(places[FirstMin(places, OfficeDistance(distance))]);
    }

    /** `handle_location_message` with the rate lines reading the buy and sell columns: the reply is
        decided on the tables and the stored state, which is removed once an office was answered. */
    method HandleLocation(userId: Option<int>, hasLocation: bool, distance: Record -> real,
                          bestNames: (string, string) -> set<string>)
      returns (reply: Reply)
      modifies this
      ensures reply == LocationReply(Current(), old(userSearchState), userId, hasLocation, distance, bestNames)
      ensures userSearchState == if reply.NearestOffice? then old(userSearchState) - {userId.value} else old(userSearchState)
    {
      if !KnownUser(userId) || !hasLocation {
        return CouldNotDetermine;
      }
      var state := if userId.value in userSearchState then userSearchState[userId.value] else map[];
      var nearest := FindNearest(state, distance, bestNames);
      if nearest.Failure? {
        return nearest.error;
      }
      var office := nearest.value.office;
      var officeRates := AsyncRateRepository.GetRatesByOffice(rates, Col(office, Id), CurrencyService.RateLimit);
      reply := NearestOffice(office, nearest.value.organization, officeRates);
      userSearchState := userSearchState - {userId.value};
    }
  }
}
