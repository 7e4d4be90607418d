// The rates router (src/bot/routers/rates.py): the main-menu table cut, the
// sell/get currency selection, and the best-rates reply for a currency pair
// (timestamp staleness and the NBG / online / other grouping of its rows).
// Telegram message edits, emoji and fixed-width text rendering are not
// modelled: a reply is a datatype and a table is a list of lines.

module RatesRouter {
  import opened Common
  import opened Records
  import opened BaseRepository
  import CurrencyService
  import Keyboards
  import OfficeRepository
  import AsyncRateRepository

  const BotCurrencies: seq<string> := ["USD", "EUR", "GBP", "RUB", "GEL"]
  const NameWidth: nat := 15
  /** Rates older than three hours are flagged as outdated. */
  const StaleAfter: int := 3 * 3600

  // ----- main menu -----

  /** `handle_main_menu` shows only the first four rows of the latest-rates table. */
  method MainMenuRows(service: CurrencyService.CurrencyService) returns (rows: seq<CurrencyService.RateRow>)
    ensures rows == Take(service.LatestRatesTable(service.Current()), 4)
    ensures rows == [service.NbgRow(service.Current())] + service.BankRows(service.Current(), CurrencyService.OnlineBanks)
  {
    var table := service.GetLatestRatesTable();
    rows := Take(table, 4);
    FixedRowsShown(service, service.Current());
  }

  /** The four rows shown are always the National Bank row and the three online banks: the ranked
      organizations never reach the main menu. */
  lemma FixedRowsShown(service: CurrencyService.CurrencyService, db: CurrencyService.Snapshot)
    ensures Take(service.LatestRatesTable(db), 4) == [service.NbgRow(db)] + service.BankRows(db, CurrencyService.OnlineBanks)
  {
    service.TableShape(db);
    service.BankRowsAt(db, CurrencyService.OnlineBanks);
  }

  // ----- currency selection -----

  /** The currency after the first ':' of callback data the router matched on `prefix:`. */
  function CallbackArgument(data: string, prefix: string): (arg: string)
    requires ':' !in prefix && StartsWith(data, prefix + ":")
    ensures data == prefix + ":" + arg ==> (arg == data[|prefix| + 1..] <==> ':' !in arg)
  {
    assert data == prefix + [':'] + data[|prefix| + 1..];
    SplitConcat(prefix, ':', data[|prefix| + 1..]);
    Keyboards.CallbackRoundTrip(prefix, data[|prefix| + 1..]);
    Split(data, ':')[1]
  }

  function Differs(sell: string): string -> bool
  {
    c => c != sell
  }

  /** The get-currencies offered after `sell` was chosen: every bot currency but `sell`, in order. */
  function GetOptions(sell: string): (options: seq<string>)
    ensures forall c :: c in options <==> c in BotCurrencies && c != sell
  {
    Filter(BotCurrencies, Differs(sell))
  }

  /** Choosing a bot currency leaves the four others; anything else leaves all five, in order. */
  lemma GetOptionsCount(sell: string)
    ensures sell in BotCurrencies ==> |GetOptions(sell)| == 4
    ensures sell !in BotCurrencies ==> GetOptions(sell) == BotCurrencies
  {
    if sell !in BotCurrencies {
      FilterKeepsAll(BotCurrencies, Differs(sell));
    } else {
      FilterSplitCount(BotCurrencies, Differs(sell));
      OnlyOneEqual(BotCurrencies, sell);
    }
  }

  /** In a list without repetition, exactly one element equals a member. */
  lemma {:induction false} OnlyOneEqual(s: seq<string>, x: string)
    requires x in s
    requires forall i, j :: 0 <= i < j < |s| ==> s[i] != s[j]
    ensures |Filter(s, Not(Differs(x)))| == 1
    decreases |s|
  {
    if s[0] == x {
      assert forall y :: y in s[1..] ==> y != x by {
        forall y | y in s[1..] ensures y != x { var j :| 0 <= j < |s[1..]| && s[1..][j] == y; assert s[j + 1] == y; }
      }
      FilterEmpty(s[1..], Not(Differs(x)));
    } else {
      OnlyOneEqual(s[1..], x);
    }
  }

  /** The prompt `handle_sell_currency_selection` edits the message into. */
  function SellPrompt(sell: string): string
  {
    "Selected " + sell + ". What currency do you want to get?"
  }

  /** `handle_sell_currency_selection`: the chosen currency, the prompt and the get-currencies offered. */
  function SellSelection(data: string): (r: (string, seq<string>))
    requires StartsWith(data, "sell_currency:")
  {
    var sell := CallbackArgument(data, "sell_currency");
    (SellPrompt(sell), GetOptions(sell))
  }

  // The get handler recovers the sell currency from the prompt with
  // `re.match(r"Selected (\w+). What currency do you want to get?", text)`:
  // anchored at the start only, `\w+` greedy with backtracking, the `.`
  // matching any character but a newline, and the final `t?` optional, so
  // that the text after the group only has to begin with one character and
  // " What currency do you want to ge".

  /** `\w` on ASCII: a letter, a digit or the underscore. */
  predicate IsWordChar(c: char)
  {
    ('a' <= c <= 'z') || ('A' <= c <= 'Z') || ('0' <= c <= '9') || c == '_'
  }

  const PatternHead := "Selected "
  const PatternTail := " What currency do you want to ge"

  /** The length of the longest run of word characters `s` starts with. */
  function WordRun(s: string): (n: nat)
    ensures n <= |s|
    ensures forall i :: 0 <= i < n ==> IsWordChar(s[i])
    ensures n < |s| ==> !IsWordChar(s[n])
    decreases |s|
  {
    if s != [] && IsWordChar(s[0]) then 1 + WordRun(s[1..]) else 0
  }

  /** The rest of the pattern matches after a group of `k` characters. */
  predicate TailFits(s: string, k: nat)
  {
    k < |s| && s[k] != '\n' && StartsWith(s[k + 1..], PatternTail)
  }

  /** Backtracking from a group of `k` characters: the longest group of at least one character
      after which the rest of the pattern matches. */
  function LongestFit(s: string, k: nat): (r: Option<nat>)
    ensures r.Some? ==> 1 <= r.value <= k && TailFits(s, r.value)
    ensures r.Some? ==> forall j :: r.value < j <= k ==> !TailFits(s, j)
    ensures r.None? ==> forall j :: 1 <= j <= k ==> !TailFits(s, j)
  {
    if k == 0 then None else if TailFits(s, k) then Some(k) else LongestFit(s, k - 1)
  }

  /** The group the pattern captures, None when the text does not match. */
  function MatchSell(text: string): (r: Option<string>)
    ensures r.Some? ==> |r.value| >= 1 && (forall i :: 0 <= i < |r.value| ==> IsWordChar(r.value[i]))
                        && StartsWith(text, PatternHead + r.value)
    ensures !StartsWith(text, PatternHead) ==> r.None?
    ensures StartsWith(text, PatternHead) ==>
              var s := text[|PatternHead|..];
              (r.None? <==> forall j :: 1 <= j <= WordRun(s) ==> !TailFits(s, j))
              && (r.Some? ==> |r.value| <= WordRun(s) && r.value == s[..|r.value|] && TailFits(s, |r.value|)
                              && forall j :: |r.value| < j <= WordRun(s) ==> !TailFits(s, j))
  {
    if !StartsWith(text, PatternHead) then None
    else
      var s := text[|PatternHead|..];
      match LongestFit(s, WordRun(s))
      case None => None
      case Some(k) =>
        assert text[..|PatternHead| + k] == PatternHead + s[..k];
        Some(s[..k])
  }

  /** The sell currency of `handle_get_currency_selection`: the captured group, or "USD" when there
      is no text or it does not match. */
  function SellCurrency(text: Option<string>): (sell: string)
    ensures sell == "USD" || (text.Some? && MatchSell(text.value) == Some(sell))
    ensures (text.None? || MatchSell(text.value).None?) ==> sell == "USD"
    ensures text.Some? && MatchSell(text.value).Some? ==> sell == MatchSell(text.value).value
  {
    if text.None? || text.value == "" then "USD"
    else
      match MatchSell(text.value)
      case None => "USD"
      case Some(g) => g
  }

  /** The prompt of a sell currency made of word characters gives that currency back. */
  lemma SellPromptRoundTrip(sell: string)
    requires |sell| >= 1 && forall i :: 0 <= i < |sell| ==> IsWordChar(sell[i])
    ensures SellCurrency(Some(SellPrompt(sell))) == sell
  {
    var rest := ". What currency do you want to get?";
    SellPromptSplits(sell);
    var s := SellPrompt(sell)[|PatternHead|..];
    WordRunStops(sell, rest);
    SellPromptTailFits(sell);
    assert s[..|sell|] == sell;
  }

  /** The prompt is the pattern's head, the currency, then the fixed question. */
  lemma SellPromptSplits(sell: string)
    ensures StartsWith(SellPrompt(sell), PatternHead)
    ensures SellPrompt(sell)[|PatternHead|..] == sell + ". What currency do you want to get?"
  {
    var text := SellPrompt(sell);
    assert text == PatternHead + (sell + ". What currency do you want to get?");
    assert text[..|PatternHead|] == PatternHead;
  }

  /** After the currency, the rest of the pattern matches the fixed question. */
  lemma SellPromptTailFits(sell: string)
    ensures TailFits(sell + ". What currency do you want to get?", |sell|)
  {
    var rest := ". What currency do you want to get?";
    var s := sell + rest;
    assert s[|sell|] == '.';
    assert s[|sell| + 1..] == rest[1..];
    assert rest[1..][..|PatternTail|] == PatternTail;
  }

  /** A run of word characters followed by a character that is not one is exactly the run. */
  lemma {:induction false} WordRunStops(run: string, rest: string)
    requires forall i :: 0 <= i < |run| ==> IsWordChar(run[i])
    requires rest != [] && !IsWordChar(rest[0])
    ensures WordRun(run + rest) == |run|
    decreases |run|
  {
    if run == [] {
      assert run + rest == rest;
    } else {
      assert (run + rest)[1..] == run[1..] + rest;
      WordRunStops(run[1..], rest);
    }
  }

  /** A currency picked on the sell keyboard reaches the get handler unchanged, through the
      callback data and then the prompt. */
  lemma SellCurrencyReachesGetHandler(c: string)
    requires c in BotCurrencies
    ensures SellCurrency(Some(SellSelection(Keyboards.CallbackData("sell_currency", c)).0)) == c
  {
    Keyboards.CallbackRoundTrip("sell_currency", c);
    assert Keyboards.CallbackData("sell_currency", c)[|"sell_currency"| + 1..] == c;
    SellPromptRoundTrip(c);
  }

  /** A sell currency that is empty or starts with an ASCII character the pattern cannot capture
      falls back to "USD". */
  lemma NonWordSellFallsBack(sell: string)
    requires sell == [] || ((sell[0] as int) < 128 && !IsWordChar(sell[0]))
    ensures SellCurrency(Some(SellPrompt(sell))) == "USD"
  {
    var text := SellPrompt(sell);
    var s := text[|PatternHead|..];
    assert text[..|PatternHead|] == PatternHead;
    assert s == sell + ". What currency do you want to get?";
    assert WordRun(s) == 0 by {
      if sell == [] {
        assert s[0] == '.';
      } else {
        assert s[0] == sell[0];
      }
    }
  }

  // ----- the best-rates reply -----

  /** An entry of `get_best_rates_for_pair`: an organization name and its rate. */
  datatype BestRate = BestRate(organization: string, rate: real)

  /** The instant a rate row was recorded, when it has one. */
  function StampOf(r: Record): Option<int>
  {
    match Col(r, Timestamp)
    case VTime(t) => Some(t)
    case _ => None
  }

  /** A rate row's timestamp when its currency is either side of the pair and the timestamp is set. */
  function PairStamp(sell: string, get: string): Record -> Option<int>
  {
    r => if (Col(r, Currency) == VStr(sell) || Col(r, Currency) == VStr(get)) && Truthy(Col(r, Timestamp)) then StampOf(r) else None
  }

  /** The timestamps one best-rate entry contributes: the organization found by name (active or not),
      its first office, and that office's newest rates of either currency. */
  function EntryStamps(schema: set<Field>, db: CurrencyService.Snapshot, entry: BestRate, sell: string, get: string): seq<int>
  {
    var org := FirstMatch(db.organizations, map[Name := VStr(entry.organization)], schema);
    if org.None? then []
    else
      var offs := CurrencyService.OfficesOf(db, org.value);
      if offs == [] then [] else FilterMap(CurrencyService.NewestRates(db, offs[0]), PairStamp(sell, get))
  }

  /** The timestamps of all entries, in entry order. */
  function PairStamps(schema: set<Field>, db: CurrencyService.Snapshot, entries: seq<BestRate>, sell: string, get: string): seq<int>
    decreases |entries|
  {
    if entries == [] then []
    else PairStamps(schema, db, entries[..|entries| - 1], sell, get) + EntryStamps(schema, db, entries[|entries| - 1], sell, get)
  }

  /** The timestamps taken from stored rates come from stored rates of either currency. */
  lemma StampsFromRows(db: CurrencyService.Snapshot, rows: seq<Record>, sell: string, get: string)
    requires forall r :: r in rows ==> r in db.rates
    ensures forall t :: t in FilterMap(rows, PairStamp(sell, get)) ==> FromPair(db, t, sell, get)
  {
    FilterMapIn(rows, PairStamp(sell, get));
    forall t | t in FilterMap(rows, PairStamp(sell, get))
      ensures FromPair(db, t, sell, get)
    {
      var r :| r in rows && PairStamp(sell, get)(r) == Some(t);
      assert r in db.rates;
    }
  }

  /** The timestamps of one entry come from stored rates of either currency. */
  lemma EntryStampsFromPair(schema: set<Field>, db: CurrencyService.Snapshot, entry: BestRate, sell: string, get: string)
    ensures forall t :: t in EntryStamps(schema, db, entry, sell, get) ==> FromPair(db, t, sell, get)
  {
    var org := FirstMatch(db.organizations, map[Name := VStr(entry.organization)], schema);
    if org.Some? {
      var offs := CurrencyService.OfficesOf(db, org.value);
      if offs != [] {
        CurrencyService.NewestAreStored(db, offs[0]);
        StampsFromRows(db, CurrencyService.NewestRates(db, offs[0]), sell, get);
      }
    }
  }

  /** A stored rate of either currency carries this timestamp. */
  ghost predicate FromPair(db: CurrencyService.Snapshot, t: int, sell: string, get: string)
  {
    exists r :: r in db.rates && (Col(r, Currency) == VStr(sell) || Col(r, Currency) == VStr(get)) && Col(r, Timestamp) == VTime(t)
  }

  /** Every collected timestamp comes from a stored rate of either currency; no entry, no timestamp. */
  lemma {:induction false} PairStampsFromPair(schema: set<Field>, db: CurrencyService.Snapshot, entries: seq<BestRate>, sell: string, get: string)
    ensures forall t :: t in PairStamps(schema, db, entries, sell, get) ==> FromPair(db, t, sell, get)
    ensures entries == [] ==> PairStamps(schema, db, entries, sell, get) == []
    decreases |entries|
  {
    if entries != [] {
      PairStampsFromPair(schema, db, entries[..|entries| - 1], sell, get);
      EntryStampsFromPair(schema, db, entries[|entries| - 1], sell, get);
    }
  }

  /** The inner loop: the timestamp of each rate of either currency, in order. */
  method StampsOf(rateObjs: seq<Record>, sell: string, get: string) returns (stamps: seq<int>)
    ensures stamps == FilterMap(rateObjs, PairStamp(sell, get))
  {
    stamps := [];
    for i := 0 to |rateObjs|
      invariant stamps == FilterMap(rateObjs[..i], PairStamp(sell, get))
    {
      assert rateObjs[..i + 1][..i] == rateObjs[..i];
      var r := rateObjs[i];
      if Col(r, Currency) == VStr(sell) || Col(r, Currency) == VStr(get) {
        if Truthy(Col(r, Timestamp)) && StampOf(r).Some? {
          stamps := stamps + [StampOf(r).value];
        }
      }
    }
    assert rateObjs[..|rateObjs|] == rateObjs;
  }

  /** One entry of the timestamps loop, read from the tables. */
  method EntryStampsOf(service: CurrencyService.CurrencyService, entry: BestRate, sell: string, get: string)
    returns (stamps: seq<int>)
    ensures stamps == EntryStamps(service.organizations.schema, service.Current(), entry, sell, get)
  {
    var org := service.organizations.FindOneBy(map[Name := VStr(entry.organization)]);
    if org.None? {
      return [];
    }
    var offs := OfficeRepository.GetByOrganization(service.offices, Col(org.value, Id));
    if offs == [] {
      return [];
    }
    var rateObjs := AsyncRateRepository.GetRatesByOffice(service.rates, Col(offs[0], Id), CurrencyService.RateLimit);
    stamps := StampsOf(rateObjs, sell, get);
  }

  /** The timestamps loop: every entry's organization, first office and newest rates, read from the
      tables, appending the timestamp of each rate of either currency. */
  method CollectStamps(service: CurrencyService.CurrencyService, entries: seq<BestRate>, sell: string, get: string)
    returns (stamps: seq<int>)
    ensures stamps == PairStamps(service.organizations.schema, service.Current(), entries, sell, get)
  {
    stamps := [];
    for e := 0 to |entries|
      invariant stamps == PairStamps(service.organizations.schema, service.Current(), entries[..e], sell, get)
    {
      assert entries[..e + 1][..e] == entries[..e];
      var more := EntryStampsOf(service, entries[e], sell, get);
      stamps := stamps + more;
    }
    assert entries[..|entries|] == entries;
  }

  /** `max(timestamps)`. */
  function Newest(stamps: seq<int>): (m: int)
    requires stamps != []
    ensures m in stamps
    ensures forall t :: t in stamps ==> t <= m
    decreases |stamps|
  {
    if |stamps| == 1 then stamps[0]
    else
      var rest := Newest(stamps[..|stamps| - 1]);
      assert forall t :: t in stamps ==> t in stamps[..|stamps| - 1] || t == stamps[|stamps| - 1];
      if stamps[|stamps| - 1] > rest then stamps[|stamps| - 1] else rest
  }

  /** The staleness rule: more than three hours between the newest timestamp and now. */
  predicate Outdated(latest: int, now: int)
  {
    now - latest > StaleAfter
  }

  // ----- the table layout -----

  /** A line of the pair table: the header, a separator, or an organization with its rate. */
  datatype Line = Header | Separator | Row(organization: string, rate: real)

  const OfficialLabel := "NBG[official]"
  const NameMap: map<string, string> := map[
    "mBank" := "BoG[online]", "TBC mobile" := "TBC[online]", "MyCredo" := "Credo[online]",
    "National Bank of Georgia" := OfficialLabel, "NBG" := OfficialLabel]

  /** `trim_name`: the name when it fits, otherwise its first width-1 characters and an ellipsis
      (for width 0, Python's `name[:-1]`: all but the last character). */
  function TrimName(name: string, width: nat): (r: string)
    ensures |name| <= width ==> r == name
    ensures |name| > width && width >= 1 ==> |r| == width && r[..width - 1] == name[..width - 1] && r[width - 1] == '…'
    ensures width >= 1 ==> |r| <= width
  {
    if |name| <= width then name
    else if width == 0 then name[..|name| - 1] + "…"
    else name[..width - 1] + "…"
  }

  /** The name a row shows: the mapped label when there is one, trimmed to the column width. */
  function DisplayName(organization: string): (d: string)
    ensures |d| <= NameWidth
  {
    TrimName(if organization in NameMap then NameMap[organization] else organization, NameWidth)
  }

  function LineOf(r: BestRate): Line
  {
    Row(DisplayName(r.organization), r.rate)
  }

  predicate IsOfficial(r: BestRate)
  {
    DisplayName(r.organization) == OfficialLabel
  }

  predicate IsOnline(r: BestRate)
  {
    DisplayName(r.organization) in NameMap.Values && DisplayName(r.organization) != OfficialLabel
  }

  function OnlineLine(r: BestRate): Option<Line>
  {
    if !IsOfficial(r) && IsOnline(r) then Some(LineOf(r)) else None
  }

  function OtherLine(r: BestRate): Option<Line>
  {
    if !IsOfficial(r) && !IsOnline(r) then Some(LineOf(r)) else None
  }

  function OfficialLine(r: BestRate): Option<Line>
  {
    if IsOfficial(r) then Some(LineOf(r)) else None
  }

  /** The National Bank line: the last official entry's, since each one overwrites the previous. */
  function LastOfficial(rates: seq<BestRate>): Option<Line>
    decreases |rates|
  {
    if rates == [] then None
    else if IsOfficial(rates[|rates| - 1]) then Some(LineOf(rates[|rates| - 1]))
    else LastOfficial(rates[..|rates| - 1])
  }

  /** The table: the header and a separator, then the National Bank line and a separator when there
      is one, the online lines and a separator when there are any, then the other lines. */
  function Layout(rates: seq<BestRate>): seq<Line>
  {
    var nbg := LastOfficial(rates);
    var online := FilterMap(rates, OnlineLine);
    [Header, Separator]
    + (if nbg.Some? then [nbg.value, Separator] else [])
    + (if online != [] then online + [Separator] else [])
    + FilterMap(rates, OtherLine)
  }

  /** The grouping loop: the last official line, then the online and other lines in entry order. */
  method GroupRows(rates: seq<BestRate>) returns (nbg: Option<Line>, online: seq<Line>, others: seq<Line>)
    ensures nbg == LastOfficial(rates)
    ensures online == FilterMap(rates, OnlineLine) && others == FilterMap(rates, OtherLine)
  {
    nbg, online, others := None, [], [];
    for i := 0 to |rates|
      invariant nbg == LastOfficial(rates[..i])
      invariant online == FilterMap(rates[..i], OnlineLine)
      invariant others == FilterMap(rates[..i], OtherLine)
    {
      assert rates[..i + 1][..i] == rates[..i];
      var display := DisplayName(rates[i].organization);
      var line := Row(display, rates[i].rate);
      if display == OfficialLabel {
        nbg := Some(line);
      } else if display in NameMap.Values && display != OfficialLabel {
        online := online + [line];
      } else {
        others := others + [line];
      }
    }
    assert rates[..|rates|] == rates;
  }

  /** Every entry lands in exactly one group: official, online or other. */
  lemma {:induction false} GroupsPartition(rates: seq<BestRate>)
    ensures |FilterMap(rates, OfficialLine)| + |FilterMap(rates, OnlineLine)| + |FilterMap(rates, OtherLine)| == |rates|
    decreases |rates|
  {
    if rates != [] {
      GroupsPartition(rates[..|rates| - 1]);
    }
  }

  /** The National Bank line is present exactly when some entry is official, and is then the line of
      the last official entry. */
  lemma {:induction false} LastOfficialWins(rates: seq<BestRate>)
    ensures LastOfficial(rates).None? <==> forall k :: 0 <= k < |rates| ==> !IsOfficial(rates[k])
    ensures forall k :: 0 <= k < |rates| && IsOfficial(rates[k]) && (forall j :: k < j < |rates| ==> !IsOfficial(rates[j]))
                        ==> LastOfficial(rates) == Some(LineOf(rates[k]))
    decreases |rates|
  {
    if rates != [] {
      var init := rates[..|rates| - 1];
      LastOfficialWins(init);
      assert forall k :: 0 <= k < |init| ==> init[k] == rates[k];
    }
  }

  /** The stored names of the online banks and of the National Bank fall in their groups. */
  lemma KnownNames(rate: real)
    ensures forall n :: n in ["mBank", "TBC mobile", "MyCredo"] ==> OnlineLine(BestRate(n, rate)).Some?
    ensures forall n :: n in ["National Bank of Georgia", "NBG"] ==> IsOfficial(BestRate(n, rate))
  {
    assert NameMap["mBank"] in NameMap.Values && NameMap["TBC mobile"] in NameMap.Values && NameMap["MyCredo"] in NameMap.Values;
  }

  /** The table lines: the header and separator, then per group its lines and a separator. */
  lemma LayoutShape(rates: seq<BestRate>)
    ensures var lines := Layout(rates);
            var nbg := LastOfficial(rates);
            var online := FilterMap(rates, OnlineLine);
            var others := FilterMap(rates, OtherLine);
            |lines| == 2 + (if nbg.Some? then 2 else 0) + (if online != [] then |online| + 1 else 0) + |others|
            && lines[..2] == [Header, Separator]
            && (nbg.Some? ==> lines[2] == nbg.value)
            && lines[|lines| - |others|..] == others
  {
  }

  /** What `handle_get_currency_selection` replies. */
  datatype PairReply =
    | NoRatesAvailable(sell: string, get: string)
    | RatesTable(latest: int, outdated: bool, lines: seq<Line>)

  /** The reply for a sell and a get currency: no table without a timestamp, otherwise the newest
      timestamp, whether it is stale, and the lines of the entries. */
  function PairReplyOf(entries: seq<BestRate>, stamps: seq<int>, sell: string, get: string, now: int): (reply: PairReply)
    ensures reply.NoRatesAvailable? <==> stamps == [] || entries == []
    ensures reply.RatesTable? ==> reply.latest in stamps && (forall t :: t in stamps ==> t <= reply.latest)
    ensures reply.RatesTable? ==> (reply.outdated <==> now - reply.latest > 3 * 3600)
  {
    if stamps == [] then NoRatesAvailable(sell, get)
    else if entries == [] then NoRatesAvailable(sell, get)
    else
      var latest := Newest(stamps);
      RatesTable(latest, Outdated(latest, now), Layout(entries))
  }

  /** With no best-rate entry there is no timestamp either: the reply is always "no rates", so the
      later check for an empty entry list is never what decides it. */
  lemma NoEntriesNoStamps(schema: set<Field>, db: CurrencyService.Snapshot, sell: string, get: string, now: int)
    ensures PairStamps(schema, db, [], sell, get) == []
    ensures PairReplyOf([], PairStamps(schema, db, [], sell, get), sell, get, now) == NoRatesAvailable(sell, get)
  {
  }

  /** The reply once the entries and their timestamps are known. */
  method BuildReply(entries: seq<BestRate>, stamps: seq<int>, sell: string, get: string, now: int) returns (reply: PairReply)
    ensures reply == PairReplyOf(entries, stamps, sell, get, now)
  {
    if stamps == [] {
      return NoRatesAvailable(sell, get);
    }
    var latest := Newest(stamps);
    var outdated := now - latest > StaleAfter;
    if entries == [] {
      return NoRatesAvailable(sell, get);
    }
    var nbg, online, others := GroupRows(entries);
    var lines := [Header, Separator];
    if nbg.Some? {
      lines := lines + [nbg.value, Separator];
    }
    if online != [] {
      lines := lines + online + [Separator];
    }
    lines := lines + others;
    reply := RatesTable(latest, outdated, lines);
  }

  /** `handle_get_currency_selection`: the get currency from the callback data, the sell currency
      from the prompt, the best rates for that pair, their timestamps, then the reply. The clock and
      `get_best_rates_for_pair` are parameters. */
  method HandleGetCurrency(service: CurrencyService.CurrencyService, data: string, text: Option<string>,
                           bestRates: (string, string) -> seq<BestRate>, now: int)
    returns (reply: PairReply)
    requires StartsWith(data, "get_currency:")
    ensures var get := CallbackArgument(data, "get_currency");
            var sell := SellCurrency(text);
            reply == PairReplyOf(bestRates(sell, get), PairStamps(service.organizations.schema, service.Current(), bestRates(sell, get), sell, get), sell, get, now)
  {
    var get := CallbackArgument(data, "get_currency");
    var sell := SellCurrency(text);
    var entries := bestRates(sell, get);
    var stamps := CollectStamps(service, entries, sell, get);
    reply := BuildReply(entries, stamps, sell, get, now);
  }
}
