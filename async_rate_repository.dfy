// The asynchronous rate repository (src/repositories/rate_repository.py).
// Unlike the synchronous one, a filter argument is applied whenever it is
// not None, every query is capped by `limit`, and `get_best_rates` orders
// the other way round: highest buy_rate first, or lowest sell_rate first.

module AsyncRateRepository {
  import opened Common
  import opened Records
  import opened BaseRepository
  import opened Ordering
  import RateRepository

  /** The WHERE clauses of `get_latest_rates`: each filter whenever its argument is not None. */
  function GivenFilter(currency: Value, officeId: Value): Record -> bool
  {
    x => (currency != VNone ==> Col(x, Currency) == currency) && (officeId != VNone ==> Col(x, OfficeId) == officeId)
  }

  /** ORDER BY, then LIMIT: the first `limit` rows of the ordered selection. */
  function TopRows(sel: seq<Record>, key: Record -> Option<real>, desc: bool, limit: nat): (r: seq<Record>)
    ensures |r| == if limit <= |sel| then limit else |sel|
    ensures multiset(r) <= multiset(sel)
    ensures forall x :: x in r ==> x in sel
    ensures SortedBy(r, key, desc)
    ensures forall x, y :: x in r && y in sel && y !in r ==> Precedes(x, y, key, desc)
  {
    var all := RateRepository.Ordered(sel, key, desc);
    TakeSorted(all, limit, key, desc);
    assert |all| == |multiset(all)| == |sel|;
    var r := Take(all, limit);
    assert all == r + all[|r|..];
    assert forall x :: x in r ==> x in all;
    r
  }

  /** `get_latest_rates`: the newest `limit` rates passing the given filters, newest first. */
  function GetLatestRates(t: Table, currency: Value, officeId: Value, limit: nat): (r: seq<Record>)
    reads t
    ensures var sel := Filter(t.rows, GivenFilter(currency, officeId));
              |r| == (if limit <= |sel| then limit else |sel|) && multiset(r) <= multiset(sel)
    ensures forall x :: x in r ==> x in t.rows && (currency != VNone ==> Col(x, Currency) == currency)
                                               && (officeId != VNone ==> Col(x, OfficeId) == officeId)
    ensures SortedBy(r, RateRepository.TimestampKey, true)
    ensures forall x, y :: x in r && y in Filter(t.rows, GivenFilter(currency, officeId)) && y !in r
                           ==> KeyLe(RateRepository.TimestampKey(y), RateRepository.TimestampKey(x))
  {
    var sel := Filter(t.rows, GivenFilter(currency, officeId));
    TopRows(sel, RateRepository.TimestampKey, true, limit)
  }

  /** `get_by_organization`: rates have no organization_id attribute, so the query cannot be built
      (`getattr` raises) and None stands for that error; on a model that has the column it is the
      newest `limit` rows of that organization. */
  function GetByOrganization(t: Table, organizationId: Value, limit: nat): (r: Option<seq<Record>>)
    reads t
    ensures r.None? <==> OrganizationId !in t.schema
    ensures r.Some? ==> |r.value| <= limit && forall x :: x in r.value ==> x in t.rows && Col(x, OrganizationId) == organizationId
  {
    if OrganizationId !in t.schema then None
    else
      var sel := Filter(t.rows, ColumnIs(OrganizationId, organizationId));
      var r := TopRows(sel, RateRepository.TimestampKey, true, limit);
        Some(r)
  }

  /** `get_rates_by_office`: at most `limit` rates of one office, newest first. */
  function GetRatesByOffice(t: Table, officeId: Value, limit: nat): (r: seq<Record>)
    reads t
    ensures var sel := Filter(t.rows, ColumnIs(OfficeId, officeId));
              |r| == (if limit <= |sel| then limit else |sel|) && multiset(r) <= multiset(sel)
    ensures forall x :: x in r ==> x in t.rows && Col(x, OfficeId) == officeId
    ensures SortedBy(r, RateRepository.TimestampKey, true)
    ensures forall x, y :: x in r && y in t.rows && Col(y, OfficeId) == officeId && y !in r
                           ==> KeyLe(RateRepository.TimestampKey(y), RateRepository.TimestampKey(x))
  {
    var sel := Filter(t.rows, ColumnIs(OfficeId, officeId));
    TopRows(sel, RateRepository.TimestampKey, true, limit)
  }

  /** `get_rates_by_currency`: at most `limit` rates of one currency, newest first. */
  function GetRatesByCurrency(t: Table, currency: Value, limit: nat): (r: seq<Record>)
    reads t
    ensures var sel := Filter(t.rows, ColumnIs(Currency, currency));
              |r| == (if limit <= |sel| then limit else |sel|) && multiset(r) <= multiset(sel)
    ensures forall x :: x in r ==> x in t.rows && Col(x, Currency) == currency
    ensures SortedBy(r, RateRepository.TimestampKey, true)
    ensures forall x, y :: x in r && y in t.rows && Col(y, Currency) == currency && y !in r
                           ==> KeyLe(RateRepository.TimestampKey(y), RateRepository.TimestampKey(x))
  {
    var sel := Filter(t.rows, ColumnIs(Currency, currency));
    TopRows(sel, RateRepository.TimestampKey, true, limit)
  }

  /** `get_best_rates`: at most `limit` rates of one currency, highest buy_rate first when `buy`,
      otherwise lowest sell_rate first; no rate left out beats one kept. */
  function GetBestRates(t: Table, currency: Value, buy: bool, limit: nat): (r: seq<Record>)
    reads t
    ensures var sel := Filter(t.rows, ColumnIs(Currency, currency));
              |r| == (if limit <= |sel| then limit else |sel|) && multiset(r) <= multiset(sel)
    ensures forall x :: x in r ==> x in t.rows && Col(x, Currency) == currency
    ensures buy ==> SortedBy(r, RateRepository.BuyKey, true)
    ensures !buy ==> SortedBy(r, RateRepository.SellKey, false)
    ensures buy ==> forall x, y :: x in r && y in t.rows && Col(y, Currency) == currency && y !in r
                                   ==> KeyLe(RateRepository.BuyKey(y), RateRepository.BuyKey(x))
    ensures !buy ==> forall x, y :: x in r && y in t.rows && Col(y, Currency) == currency && y !in r
                                    ==> KeyLe(RateRepository.SellKey(x), RateRepository.SellKey(y))
  {
    var sel := Filter(t.rows, ColumnIs(Currency, currency));
    assert forall y :: y in sel <==> y in t.rows && Col(y, Currency) == currency;
    if buy then TopRows(sel, RateRepository.BuyKey, true, limit) else TopRows(sel, RateRepository.SellKey, false, limit)
  }

  /** `delete_old_rates`: the rows stamped before now - hours*3600 are deleted one by one while `count`
      counts them; every other row is kept in order. */
  method DeleteOldRates(t: Table, hours: int, now: int) returns (count: nat)
    requires t.Valid()
    modifies t
    ensures t.Valid() && t.nextId == old(t.nextId)
    ensures t.rows == Filter(old(t.rows), Not(RateRepository.OlderThan(now - hours * 3600)))
    ensures count == |Filter(old(t.rows), RateRepository.OlderThan(now - hours * 3600))|
  {
    var threshold := now - hours * 3600;
    count := t.DeleteWhere(RateRepository.OlderThan(threshold));
  }
}
