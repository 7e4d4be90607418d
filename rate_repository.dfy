// The rate repository (src/db/repositories/rate_repository.py): rate queries
// ordered by timestamp or by rate, deletion of rates older than a number of
// hours, and an upsert keyed on (office_id, currency). A filter argument is
// applied only when it is truthy (`if office_id:`), so None and "" both mean
// "no filter".

module RateRepository {
  import opened Common
  import opened Records
  import opened BaseRepository
  import opened Ordering

  /** A table built with the rate model's columns: no base columns, timestamp stamped at creation. */
  predicate IsRateTable(t: Table)
  {
    t.schema == RateColumns && t.defaults == map[] && t.stamped == RateStamped
  }

  /** ORDER BY keys: timestamp, buy_rate and sell_rate (NULL sorts lowest). */
  function TimestampKey(r: Record): Option<real> { NumKey(Col(r, Timestamp)) }
  function BuyKey(r: Record): Option<real> { NumKey(Col(r, BuyRate)) }
  function SellKey(r: Record): Option<real> { NumKey(Col(r, SellRate)) }

  /** The WHERE clauses of `get_latest_rates`: each filter only when its argument is truthy. */
  function LatestFilter(officeId: Value, currency: Value): Record -> bool
  {
    x => (Truthy(officeId) ==> Col(x, OfficeId) == officeId) && (Truthy(currency) ==> Col(x, Currency) == currency)
  }

  /** The selected rows in the requested order: a sorted permutation of the selection. */
  function Ordered(s: seq<Record>, key: Record -> Option<real>, desc: bool): (r: seq<Record>)
    ensures multiset(r) == multiset(s)
    ensures forall x :: x in r <==> x in s
    ensures SortedBy(r, key, desc)
  {
    assert forall x :: x in Sort(s, key, desc) <==> x in multiset(Sort(s, key, desc));
    SortSorted(s, key, desc);
    Sort(s, key, desc)
  }

  /** `get_latest_rates`: the rates passing the truthy filters, newest first. */
  function GetLatestRates(t: Table, officeId: Value, currency: Value): (r: seq<Record>)
    reads t
    ensures multiset(r) == multiset(Filter(t.rows, LatestFilter(officeId, currency)))
    ensures forall x :: x in r <==> x in t.rows && (Truthy(officeId) ==> Col(x, OfficeId) == officeId)
                                                 && (Truthy(currency) ==> Col(x, Currency) == currency)
    ensures SortedBy(r, TimestampKey, true)
  {
    var sel := Filter(t.rows, LatestFilter(officeId, currency));
    assert forall x :: LatestFilter(officeId, currency)(x)
                      <==> ((Truthy(officeId) ==> Col(x, OfficeId) == officeId) && (Truthy(currency) ==> Col(x, Currency) == currency));
    Ordered(sel, TimestampKey, true)
  }

  /** `get_rates_by_office`: the rates of one office, newest first. */
  function GetRatesByOffice(t: Table, officeId: Value): (r: seq<Record>)
    reads t
    ensures multiset(r) == multiset(Filter(t.rows, ColumnIs(OfficeId, officeId)))
    ensures forall x :: x in r <==> x in t.rows && Col(x, OfficeId) == officeId
    ensures SortedBy(r, TimestampKey, true)
  {
    var sel := Filter(t.rows, ColumnIs(OfficeId, officeId));
    Ordered(sel, TimestampKey, true)
  }

  /** `get_rates_by_currency`: the rates of one currency, newest first. */
  function GetRatesByCurrency(t: Table, currency: Value): (r: seq<Record>)
    reads t
    ensures multiset(r) == multiset(Filter(t.rows, ColumnIs(Currency, currency)))
    ensures forall x :: x in r <==> x in t.rows && Col(x, Currency) == currency
    ensures SortedBy(r, TimestampKey, true)
  {
    var sel := Filter(t.rows, ColumnIs(Currency, currency));
    Ordered(sel, TimestampKey, true)
  }

  /** `get_best_rates`: the rates of one currency, by buy_rate ascending when `buy` (lowest first),
      otherwise by sell_rate descending (highest first). */
  function GetBestRates(t: Table, currency: Value, buy: bool): (r: seq<Record>)
    reads t
    ensures multiset(r) == multiset(Filter(t.rows, ColumnIs(Currency, currency)))
    ensures forall x :: x in r <==> x in t.rows && Col(x, Currency) == currency
    ensures buy ==> SortedBy(r, BuyKey, false)
    ensures !buy ==> SortedBy(r, SellKey, true)
  {
    var sel := Filter(t.rows, ColumnIs(Currency, currency));
    if buy then Ordered(sel, BuyKey, false) else Ordered(sel, SellKey, true)
  }

  /** The WHERE clause `timestamp < cutoff` (false for a NULL timestamp). */
  function OlderThan(cutoff: int): Record -> bool
  {
    x => TimestampKey(x).Some? && TimestampKey(x).value < cutoff as real
  }

  /** `delete_old_rates`: with `now` the current UTC time in seconds, every rate stamped before
      now - hours*3600 is deleted, every other rate is kept in order, and the number deleted is returned. */
  method DeleteOldRates(t: Table, hours: int, now: int) returns (count: nat)
    requires t.Valid()
    modifies t
    ensures t.Valid() && t.nextId == old(t.nextId)
    ensures t.rows == Filter(old(t.rows), Not(OlderThan(now - hours * 3600)))
    ensures count == |Filter(old(t.rows), OlderThan(now - hours * 3600))| == |old(t.rows)| - |t.rows|
  {
    var cutoff := now - hours * 3600;
    count := t.DeleteWhere(OlderThan(cutoff));
  }

  /** The lookup key of `upsert`: (office_id, currency), each None when the data lacks it. */
  function OfficeCurrencyKey(data: Record): Record
  {
    map[OfficeId := Col(data, OfficeId), Currency := Col(data, Currency)]
  }

  /** `upsert`: the rate of this (office, currency) is updated with `data`, otherwise a new one is
      created; a pair held by at most one rate stays so. */
  method Upsert(t: Table, data: Record, now: int) returns (r: Record)
    requires t.Valid() && IsRateTable(t) && Id !in data
    modifies t
    ensures t.Valid()
    ensures old(t.FindOneBy(OfficeCurrencyKey(data))).Some? ==>
              var existing := old(t.FindOneBy(OfficeCurrencyKey(data))).value;
              r == Assign(existing, data, t.schema) && |t.rows| == |old(t.rows)|
              && forall k :: 0 <= k < |t.rows| ==> t.rows[k] == if old(t.rows)[k] == existing then r else old(t.rows)[k]
    ensures old(t.FindOneBy(OfficeCurrencyKey(data))).None? ==> r == t.Build(data, old(t.nextId), now) && t.rows == old(t.rows) + [r]
    ensures Matches(r, OfficeCurrencyKey(data), t.schema)
    ensures AtMostOne(old(t.rows), OfficeCurrencyKey(data), t.schema) ==> AtMostOne(t.rows, OfficeCurrencyKey(data), t.schema)
  {
    r := t.UpsertBy(OfficeCurrencyKey(data), data, data, now);
  }
}
