// The latest-rates table the bot shows (src/services/currency_service.py):
// the National Bank row, the three online banks in a fixed order, then up to
// six other organizations ranked by their USD buy rate. Each row samples the
// rates of the organization's first office only.

module CurrencyService {
  import opened Common
  import opened Records
  import opened BaseRepository
  import opened Ordering
  import OrganizationRepository
  import OfficeRepository
  import AsyncRateRepository
  import RateRepository

  /** `RateRow`: an organization name with its USD, EUR and RUB buy rates, each possibly None. */
  datatype RateRow = RateRow(organization: Value, usd: Value, eur: Value, rub: Value)

  /** The row shown for an organization that cannot be sampled: its display name, no rates. */
  function Placeholder(name: string): RateRow
  {
    RateRow(VStr(name), VNone, VNone, VNone)
  }

  /** The online banks: the name shown on a placeholder, and the stored name looked up. */
  const OnlineBanks: seq<(string, string)> := [("Bank of Georgia", "mBank"), ("TBC Bank", "TBC mobile"), ("Credo Bank", "MyCredo")]

  /** External ids never ranked among the other organizations. */
  const ExcludedRefs: set<Value> := {VStr("NBG"), VStr("bank_of_georgia"), VStr("tbc_bank"), VStr("credo_bank")}

  /** How many other organizations are ranked at most, and how many rates of an office are read. */
  const BestLimit: nat := 6
  const RateLimit: nat := 10
  /** `get_active_organizations()` with its default window. */
  const ActiveLimit: nat := 100

  /** The buy rate of the last rate of `currency` in `rates`, None when there is none: `_make_row`
      overwrites its variable at each rate of that currency. */
  function LastBuy(rates: seq<Record>, currency: string): Value
    decreases |rates|
  {
    if rates == [] then VNone
    else if Col(rates[|rates| - 1], Currency) == VStr(currency) then Col(rates[|rates| - 1], BuyRate)
    else LastBuy(rates[..|rates| - 1], currency)
  }

  /** The row `_make_row` builds. */
  function RowOf(name: Value, rates: seq<Record>): RateRow
  {
    RateRow(name, LastBuy(rates, "USD"), LastBuy(rates, "EUR"), LastBuy(rates, "RUB"))
  }

  /** Without a rate of `currency` the row holds None. */
  lemma {:induction false} LastBuyNone(rates: seq<Record>, currency: string)
    requires forall k :: 0 <= k < |rates| ==> Col(rates[k], Currency) != VStr(currency)
    ensures LastBuy(rates, currency) == VNone
    decreases |rates|
  {
    if rates != [] {
      var init := rates[..|rates| - 1];
      forall k | 0 <= k < |init| ensures Col(init[k], Currency) != VStr(currency) {
        assert init[k] == rates[k];
      }
      LastBuyNone(init, currency);
    }
  }

  /** The rate at `k`, the last one of `currency`, gives the row its buy rate. */
  lemma {:induction false} LastBuyAt(rates: seq<Record>, currency: string, k: int)
    requires 0 <= k < |rates| && Col(rates[k], Currency) == VStr(currency)
    requires forall j :: k < j < |rates| ==> Col(rates[j], Currency) != VStr(currency)
    ensures LastBuy(rates, currency) == Col(rates[k], BuyRate)
    decreases |rates|
  {
    if k < |rates| - 1 {
      var init := rates[..|rates| - 1];
      assert init[k] == rates[k];
      forall j | k < j < |init| ensures Col(init[j], Currency) != VStr(currency) {
        assert init[j] == rates[j];
      }
      LastBuyAt(init, currency, k);
    }
  }

  /** A currency with no rate gives None; otherwise the row holds the buy rate of its last rate. */
  lemma {:induction false} LastBuyIsLast(rates: seq<Record>, currency: string)
    ensures (forall k :: 0 <= k < |rates| ==> Col(rates[k], Currency) != VStr(currency)) ==> LastBuy(rates, currency) == VNone
    ensures forall k :: 0 <= k < |rates| && Col(rates[k], Currency) == VStr(currency)
                        && (forall j :: k < j < |rates| ==> Col(rates[j], Currency) != VStr(currency))
                        ==> LastBuy(rates, currency) == Col(rates[k], BuyRate)
  {
    if forall k :: 0 <= k < |rates| ==> Col(rates[k], Currency) != VStr(currency) {
      LastBuyNone(rates, currency);
    }
    forall k | 0 <= k < |rates| && Col(rates[k], Currency) == VStr(currency)
               && (forall j :: k < j < |rates| ==> Col(rates[j], Currency) != VStr(currency))
      ensures LastBuy(rates, currency) == Col(rates[k], BuyRate)
    {
      LastBuyAt(rates, currency, k);
    }
  }

  /** `_make_row`: one pass over the rates, each USD, EUR or RUB rate overwriting that currency's
      buy rate; other currencies are ignored. */
  method MakeRow(orgName: Value, rates: seq<Record>) returns (row: RateRow)
    ensures row == RowOf(orgName, rates)
  {
    var usd, eur, rub := VNone, VNone, VNone;
    for i := 0 to |rates|
      invariant usd == LastBuy(rates[..i], "USD")
      invariant eur == LastBuy(rates[..i], "EUR")
      invariant rub == LastBuy(rates[..i], "RUB")
    {
      assert rates[..i + 1][..i] == rates[..i];
      var rate := rates[i];
      if Col(rate, Currency) == VStr("USD") {
        usd := Col(rate, BuyRate);
      } else if Col(rate, Currency) == VStr("EUR") {
        eur := Col(rate, BuyRate);
      } else if Col(rate, Currency) == VStr("RUB") {
        rub := Col(rate, BuyRate);
      }
    }
    assert rates[..|rates|] == rates;
    row := RateRow(orgName, usd, eur, rub);
  }

  /** The sort key of the other organizations: the USD rate, None below every number. */
  function UsdKey(r: RateRow): Option<real>
  {
    NumKey(r.usd)
  }

  /** The contents of the three tables the service reads. */
  datatype Snapshot = Snapshot(organizations: seq<Record>, offices: seq<Record>, rates: seq<Record>)

  /** The offices of an organization, active or not, in table order (`get_by_organization`). */
  function OfficesOf(db: Snapshot, org: Record): seq<Record>
  {
    Filter(db.offices, ColumnIs(OrganizationId, Col(org, Id)))
  }

  /** The newest rates of an office, at most ten (`get_rates_by_office(office.id, limit=10)`). */
  function NewestRates(db: Snapshot, office: Record): seq<Record>
  {
    AsyncRateRepository.TopRows(Filter(db.rates, ColumnIs(OfficeId, Col(office, Id))), RateRepository.TimestampKey, true, RateLimit)
  }

  /** The rates sampled for an office are stored rates of that office. */
  lemma NewestAreStored(db: Snapshot, office: Record)
    ensures |NewestRates(db, office)| <= RateLimit
    ensures forall r :: r in NewestRates(db, office) ==> r in db.rates && Col(r, OfficeId) == Col(office, Id)
  {
  }

  class CurrencyService {
    const organizations: Table
    const offices: Table
    const rates: Table

    constructor(organizations: Table, offices: Table, rates: Table)
      ensures this.organizations == organizations && this.offices == offices && this.rates == rates
    {
      this.organizations := organizations;
      this.offices := offices;
      this.rates := rates;
    }

    /** What the tables hold now. */
    function Current(): Snapshot
      reads organizations, offices, rates
    {
      Snapshot(organizations.rows, offices.rows, rates.rows)
    }

    /** The row of an organization from the newest rates of its first office (`get_by_organization`,
        then `get_rates_by_office` with limit 10), None when it has no office. */
    function OrgRow(db: Snapshot, org: Record): Option<RateRow>
    {
      var offs := OfficesOf(db, org);
      if offs == [] then None else Some(RowOf(Col(org, Name), NewestRates(db, offs[0])))
    }

    /** The first organization matching `criteria` (`find_one_by`), when it is active. */
    function ActiveOrg(db: Snapshot, criteria: Record): Option<Record>
    {
      var org := FirstMatch(db.organizations, criteria, organizations.schema);
      if org.Some? && IsActiveRow(org.value) then org else None
    }

    /** The National Bank row: looked up by external id "NBG", or the "NBG" placeholder. */
    function NbgRow(db: Snapshot): RateRow
    {
      var org := ActiveOrg(db, map[ExternalRefId := VStr("NBG")]);
      if org.Some? && OrgRow(db, org.value).Some? then OrgRow(db, org.value).value else Placeholder("NBG")
    }

    /** An online bank's row: looked up by its stored name, or its placeholder. */
    function BankRow(db: Snapshot, bank: (string, string)): RateRow
    {
      var org := ActiveOrg(db, map[Name := VStr(bank.1)]);
      if org.Some? && OrgRow(db, org.value).Some? then OrgRow(db, org.value).value else Placeholder(bank.0)
    }

    /** The rows of the online banks, in their fixed order. */
    function BankRows(db: Snapshot, banks: seq<(string, string)>): seq<RateRow>
      decreases |banks|
    {
      if banks == [] then [] else BankRows(db, banks[..|banks| - 1]) + [BankRow(db, banks[|banks| - 1])]
    }

    /** The primary keys of the online banks found active, with or without an office. */
    function ShownIds(db: Snapshot, banks: seq<(string, string)>): set<Value>
      decreases |banks|
    {
      if banks == [] then {}
      else
        var org := ActiveOrg(db, map[Name := VStr(banks[|banks| - 1].1)]);
        ShownIds(db, banks[..|banks| - 1]) + (if org.Some? then {Col(org.value, Id)} else {})
    }

    /** An organization competes for the last places: not excluded by external id, not already shown,
        and with at least one office. */
    predicate Eligible(db: Snapshot, shown: set<Value>, org: Record)
    {
      Col(org, ExternalRefId) !in ExcludedRefs && Col(org, Id) !in shown && OrgRow(db, org).Some?
    }

    /** An organization's row when it is eligible. */
    function Pick(db: Snapshot, shown: set<Value>): Record -> Option<RateRow>
    {
      org => if Eligible(db, shown, org) then OrgRow(db, org) else None
    }

    /** The rows of the eligible organizations, in listing order. */
    function Candidates(db: Snapshot, orgs: seq<Record>, shown: set<Value>): seq<RateRow>
    {
      FilterMap(orgs, Pick(db, shown))
    }

    /** The first hundred active organizations in table order (`get_active_organizations()`). */
    function Listed(db: Snapshot): seq<Record>
    {
      Window(Filter(db.organizations, IsActiveRow), 0, ActiveLimit)
    }

    /** The last rows: the candidates sorted by USD rate from the highest, None last, ties in listing
        order, at most six. */
    function Ranked(db: Snapshot, shown: set<Value>): seq<RateRow>
    {
      Take(Sort(Candidates(db, Listed(db), shown), UsdKey, true), BestLimit)
    }

    /** The whole table: the National Bank row, the three online-bank rows, then the ranked rows. */
    function LatestRatesTable(db: Snapshot): seq<RateRow>
    {
      [NbgRow(db)] + BankRows(db, OnlineBanks) + Ranked(db, ShownIds(db, OnlineBanks))
    }

    // ----- properties of the table -----

    /** The table has four to ten rows: the National Bank row, then the three online banks in their
        fixed order, then the ranked rows. */
    lemma TableShape(db: Snapshot)
      ensures 4 <= |LatestRatesTable(db)| <= 4 + BestLimit
      ensures LatestRatesTable(db)[0] == NbgRow(db)
      ensures forall k :: 0 <= k < 3 ==> LatestRatesTable(db)[k + 1] == BankRow(db, OnlineBanks[k])
      ensures LatestRatesTable(db)[4..] == Ranked(db, ShownIds(db, OnlineBanks))
    {
      BankRowsAt(db, OnlineBanks);
    }

    /** The online-bank rows follow the list position by position. */
    lemma {:induction false} BankRowsAt(db: Snapshot, banks: seq<(string, string)>)
      ensures |BankRows(db, banks)| == |banks|
      ensures forall k :: 0 <= k < |banks| ==> BankRows(db, banks)[k] == BankRow(db, banks[k])
      decreases |banks|
    {
      if banks != [] {
        var init := banks[..|banks| - 1];
        BankRowsAt(db, init);
        assert BankRows(db, banks) == BankRows(db, init) + [BankRow(db, banks[|banks| - 1])];
        forall k | 0 <= k < |banks| ensures BankRows(db, banks)[k] == BankRow(db, banks[k]) {
          if k < |init| {
            assert init[k] == banks[k];
          }
        }
      }
    }

    /** Without an active organization whose first match is the one looked up, or without an office
        for it, the National Bank row is the "NBG" placeholder; otherwise it is built from the newest
        rates of that organization's first office. */
    lemma NbgRowCases(db: Snapshot)
      ensures var first := FirstMatch(db.organizations, map[ExternalRefId := VStr("NBG")], organizations.schema);
              if first.None? || !IsActiveRow(first.value) || Filter(db.offices, ColumnIs(OrganizationId, Col(first.value, Id))) == []
              then NbgRow(db) == RateRow(VStr("NBG"), VNone, VNone, VNone)
              else
                var office := Filter(db.offices, ColumnIs(OrganizationId, Col(first.value, Id)))[0];
                var newest := AsyncRateRepository.TopRows(Filter(db.rates, ColumnIs(OfficeId, Col(office, Id))), RateRepository.TimestampKey, true, RateLimit);
                NbgRow(db).organization == Col(first.value, Name) && NbgRow(db) == RowOf(Col(first.value, Name), newest)
    {
    }

    /** An online bank that is missing, inactive or office-less shows its placeholder, with no rates. */
    lemma BankRowFallback(db: Snapshot, bank: (string, string))
      requires ActiveOrg(db, map[Name := VStr(bank.1)]).None?
               || OrgRow(db, ActiveOrg(db, map[Name := VStr(bank.1)]).value).None?
      ensures BankRow(db, bank) == RateRow(VStr(bank.0), VNone, VNone, VNone)
    {
    }

    /** The candidates are exactly the rows of the eligible listed organizations, at most one each. */
    lemma CandidatesAre(db: Snapshot, orgs: seq<Record>, shown: set<Value>)
      ensures |Candidates(db, orgs, shown)| <= |orgs|
      ensures forall r :: r in Candidates(db, orgs, shown) <==>
                          exists o :: o in orgs && Eligible(db, shown, o) && OrgRow(db, o) == Some(r)
    {
      FilterMapIn(orgs, Pick(db, shown));
    }

    /** The ranked rows: at most six, sorted by USD rate from the highest with None last, drawn from the
        candidates, and never below a candidate left out. */
    lemma RankedOrder(db: Snapshot, shown: set<Value>)
      ensures var c := Candidates(db, Listed(db), shown);
              && |Ranked(db, shown)| == (if |c| <= BestLimit then |c| else BestLimit)
              && SortedBy(Ranked(db, shown), UsdKey, true)
              && multiset(Ranked(db, shown)) <= multiset(c)
              && forall x, y :: x in Ranked(db, shown) && y in c && y !in Ranked(db, shown) ==> Precedes(x, y, UsdKey, true)
    {
      var c := Candidates(db, Listed(db), shown);
      var sorted := Sort(c, UsdKey, true);
      SortSorted(c, UsdKey, true);
      TakeSorted(sorted, BestLimit, UsdKey, true);
      var r := Take(sorted, BestLimit);
      assert sorted == r + sorted[|r|..];
      assert multiset(sorted) == multiset(r) + multiset(sorted[|r|..]);
      assert forall y :: y in c <==> y in sorted by {
        forall y ensures y in c <==> y in sorted {
          assert y in c <==> y in multiset(c);
          assert y in sorted <==> y in multiset(sorted);
        }
      }
    }

    /** The sort is stable: candidates with the same USD rate keep their listing order. */
    lemma RankedStable(db: Snapshot, shown: set<Value>, k: Option<real>)
      ensures var c := Candidates(db, Listed(db), shown);
              Filter(Sort(c, UsdKey, true), HasKey(UsdKey, k)) == Filter(c, HasKey(UsdKey, k))
    {
      SortStable(Candidates(db, Listed(db), shown), UsdKey, true, k);
    }

    /** A name no active organization carries finds no active organization. */
    lemma NoActiveNamed(db: Snapshot, name: string)
      requires Name in organizations.schema
      requires forall x :: x in db.organizations && IsActiveRow(x) ==> Col(x, Name) != VStr(name)
      ensures ActiveOrg(db, map[Name := VStr(name)]).None?
    {
      var first := FirstMatch(db.organizations, map[Name := VStr(name)], organizations.schema);
      if first.Some? {
        assert Matches(first.value, map[Name := VStr(name)], organizations.schema);
      }
    }

    /** When every active organization carries an excluded external id, nothing competes for the last places. */
    lemma NothingRanked(db: Snapshot, shown: set<Value>)
      requires forall x :: x in db.organizations && IsActiveRow(x) ==> Col(x, ExternalRefId) in ExcludedRefs
      ensures Ranked(db, shown) == []
    {
      var listed := Listed(db);
      forall o | o in listed ensures Pick(db, shown)(o).None? {
        var i :| 0 <= i < |listed| && listed[i] == o;
        assert o in Filter(db.organizations, IsActiveRow);
      }
      FilterMapNone(listed, Pick(db, shown));
    }

    /** With the National Bank as the only active organization and no bank's name on it, the table has
        exactly four rows and the three online-bank rows carry no rates. */
    lemma OnlyNbgActive(db: Snapshot)
      requires Name in organizations.schema
      requires forall x :: x in db.organizations && IsActiveRow(x) ==>
                 Col(x, ExternalRefId) == VStr("NBG") && Col(x, Name) != VStr("mBank")
                 && Col(x, Name) != VStr("TBC mobile") && Col(x, Name) != VStr("MyCredo")
      ensures |LatestRatesTable(db)| == 4
      ensures forall k :: 1 <= k < 4 ==> LatestRatesTable(db)[k].usd == VNone && LatestRatesTable(db)[k].eur == VNone
                                         && LatestRatesTable(db)[k].rub == VNone
    {
      TableShape(db);
      NothingRanked(db, ShownIds(db, OnlineBanks));
      var t := LatestRatesTable(db);
      assert t[4..] == [];
      forall k | 1 <= k < 4 ensures t[k] == Placeholder(OnlineBanks[k - 1].0) {
        NoActiveNamed(db, OnlineBanks[k - 1].1);
        assert t[k] == BankRow(db, OnlineBanks[k - 1]);
      }
    }

    /** Samples an organization: the newest rates of its first office, None without an office. */
    method SampleOrg(org: Record) returns (row: Option<RateRow>)
      ensures row == OrgRow(Current(), org)
    {
      var offs := OfficeRepository.GetByOrganization(offices, Col(org, Id));
      if offs == [] {
        return None;
      }
      var rs := AsyncRateRepository.GetRatesByOffice(rates, Col(offs[0], Id), RateLimit);
      var r := MakeRow(Col(org, Name), rs);
      row := Some(r);
    }

    /** Looks up the first organization matching `criteria` and keeps it only when active. */
    method FindActive(criteria: Record) returns (org: Option<Record>)
      ensures org == ActiveOrg(Current(), criteria)
    {
      org := organizations.FindOneBy(criteria);
      if org.Some? && !IsActiveRow(org.value) {
        org := None;
      }
    }

    /** The first row of the table. */
    method GetNbgRow() returns (row: RateRow)
      ensures row == NbgRow(Current())
    {
      var org := FindActive(map[ExternalRefId := VStr("NBG")]);
      row := Placeholder("NBG");
      if org.Some? {
        var sampled := SampleOrg(org.value);
        if sampled.Some? {
          row := sampled.value;
        }
      }
    }

    /** The row of one online bank, with the active organization found for it. */
    method GetBankRow(bank: (string, string)) returns (row: RateRow, org: Option<Record>)
      ensures row == BankRow(Current(), bank) && org == ActiveOrg(Current(), map[Name := VStr(bank.1)])
    {
      org := FindActive(map[Name := VStr(bank.1)]);
      row := Placeholder(bank.0);
      if org.Some? {
        var sampled := SampleOrg(org.value);
        if sampled.Some? {
          row := sampled.value;
        }
      }
    }

    /** One online bank more. */
    lemma BankStep(db: Snapshot, banks: seq<(string, string)>, b: nat)
      requires b < |banks|
      ensures BankRows(db, banks[..b + 1]) == BankRows(db, banks[..b]) + [BankRow(db, banks[b])]
      ensures var org := ActiveOrg(db, map[Name := VStr(banks[b].1)]);
              ShownIds(db, banks[..b + 1]) == ShownIds(db, banks[..b]) + (if org.Some? then {Col(org.value, Id)} else {})
    {
      assert banks[..b + 1][..b] == banks[..b];
    }

    /** The online-bank rows, and the organizations they show. */
    method ListBanks(banks: seq<(string, string)>) returns (bankRows: seq<RateRow>, shown: set<Value>)
      ensures bankRows == BankRows(Current(), banks) && shown == ShownIds(Current(), banks)
    {
      bankRows, shown := [], {};
      for b := 0 to |banks|
        invariant bankRows == BankRows(Current(), banks[..b])
        invariant shown == ShownIds(Current(), banks[..b])
      {
        var row, org := GetBankRow(banks[b]);
        BankStep(Current(), banks, b);
        if org.Some? {
          shown := shown + {Col(org.value, Id)};
        }
        bankRows := bankRows + [row];
      }
      assert banks[..|banks|] == banks;
    }

    /** The rows of the other organizations, in listing order. */
    method CollectCandidates(all: seq<Record>, shown: set<Value>) returns (candidates: seq<RateRow>)
      ensures candidates == Candidates(Current(), all, shown)
    {
      candidates := [];
      for i := 0 to |all|
        invariant candidates == Candidates(Current(), all[..i], shown)
      {
        assert all[..i + 1][..i] == all[..i];
        var org := all[i];
        if Col(org, ExternalRefId) in ExcludedRefs || Col(org, Id) in shown {
          continue;
        }
        var sampled := SampleOrg(org);
        if sampled.Some? {
          candidates := candidates + [sampled.value];
        }
      }
      assert all[..|all|] == all;
    }

    /** The other active organizations, ranked: sorted in place by USD rate, then cut to six. */
    method RankOthers(shown: set<Value>) returns (best: seq<RateRow>)
      ensures best == Ranked(Current(), shown)
    {
      var all := OrganizationRepository.GetActiveOrganizations(organizations, 0, ActiveLimit);
      var candidates := CollectCandidates(all, shown);
      candidates := Sort(candidates, UsdKey, true);
      best := Take(candidates, BestLimit);
    }

    /** `get_latest_rates_table`. */
    method GetLatestRatesTable() returns (result: seq<RateRow>)
      ensures result == LatestRatesTable(Current())
    {
      var nbgRow := GetNbgRow();
      var bankRows, shown := ListBanks(OnlineBanks);
      var best := RankOthers(shown);
      result := [nbgRow] + bankRows + best;
    }
  }
}
