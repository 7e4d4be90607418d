// Inline keyboards (src/bot/keyboards/inline.py): a builder collects rows of
// buttons, each button carrying the callback data the routers later split
// on ':'. The Telegram markup object itself is not modelled: a keyboard is
// its list of rows.

module Keyboards {
  import opened Common

  datatype Button = Button(text: string, callbackData: string)

  /** `InlineKeyboardBuilder`: the rows added so far. */
  class Builder {
    var rows: seq<seq<Button>>

    constructor()
      ensures rows == []
    {
      rows := [];
    }

    /** `builder.row(...)`: one row more, holding these buttons. */
    method Row(buttons: seq<Button>)
      modifies this
      ensures rows == old(rows) + [buttons]
    {
      rows := rows + [buttons];
    }
  }

  const BackButton := Button("Back to main menu", "main_menu")

  /** The callback data of every button, row by row. */
  function Callbacks(kb: seq<seq<Button>>): seq<string>
    decreases |kb|
  {
    if kb == [] then [] else Callbacks(kb[..|kb| - 1]) + seq(|kb[|kb| - 1]|, i requires 0 <= i < |kb[|kb| - 1]| => kb[|kb| - 1][i].callbackData)
  }

  /** The callback data "prefix:item" of a selection button. */
  function CallbackData(prefix: string, item: string): string
  {
    prefix + ":" + item
  }

  /** `get_currency_selection_keyboard`: one row per currency in order, each with callback
      "prefix:currency", then a "main_menu" row, so one row more than there are currencies. */
  method CurrencySelectionKeyboard(currencies: seq<string>, callbackPrefix: string) returns (kb: seq<seq<Button>>)
    ensures |kb| == |currencies| + 1
    ensures forall i :: 0 <= i < |currencies| ==> kb[i] == [Button(currencies[i], callbackPrefix + ":" + currencies[i])]
    ensures kb[|currencies|] == [Button("Back to main menu", "main_menu")]
  {
    var builder := new Builder();
    for i := 0 to |currencies|
      invariant |builder.rows| == i
      invariant forall k :: 0 <= k < i ==> builder.rows[k] == [Button(currencies[k], callbackPrefix + ":" + currencies[k])]
    {
      builder.Row([Button(currencies[i], callbackPrefix + ":" + currencies[i])]);
    }
    builder.Row([BackButton]);
    kb := builder.rows;
  }

  /** `get_organization_keyboard`: one row per organization with callback "org:name", then the back row. */
  method OrganizationKeyboard(organizations: seq<string>) returns (kb: seq<seq<Button>>)
    ensures |kb| == |organizations| + 1
    ensures forall i :: 0 <= i < |organizations| ==> kb[i] == [Button(organizations[i], "org:" + organizations[i])]
    ensures kb[|organizations|] == [Button("Back to main menu", "main_menu")]
  {
    var builder := new Builder();
    for i := 0 to |organizations|
      invariant |builder.rows| == i
      invariant forall k :: 0 <= k < i ==> builder.rows[k] == [Button(organizations[k], "org:" + organizations[k])]
    {
      builder.Row([Button(organizations[i], "org:" + organizations[i])]);
    }
    builder.Row([BackButton]);
    kb := builder.rows;
  }

  /** `get_main_menu_keyboard`: five single-button rows, the first "Find Nearest Office". */
  method MainMenuKeyboard() returns (kb: seq<seq<Button>>)
    ensures |kb| == 5 && kb[0] == [Button("Find Nearest Office", "find_office_menu")]
    ensures Callbacks(kb) == ["find_office_menu", "best_rates", "best_rates_between", "list_organizations", "share_location"]
  {
    var builder := new Builder();
    builder.Row([Button("Find Nearest Office", "find_office_menu")]);
    builder.Row([Button("Best Rates", "best_rates")]);
    builder.Row([Button("Best rates between currencies", "best_rates_between")]);
    builder.Row([Button("Available organizations", "list_organizations")]);
    builder.Row([Button("Share location", "share_location")]);
    kb := builder.rows;
    CallbacksOfSingles(kb);
  }

  /** `get_back_to_main_menu_keyboard`. */
  method BackToMainMenuKeyboard() returns (kb: seq<seq<Button>>)
    ensures Callbacks(kb) == ["main_menu"]
  {
    var builder := new Builder();
    builder.Row([BackButton]);
    kb := builder.rows;
    CallbacksOfSingles(kb);
  }

  /** `get_find_office_menu_keyboard`: exactly these callbacks, in this order. */
  method FindOfficeMenuKeyboard() returns (kb: seq<seq<Button>>)
    ensures |kb| == 4
    ensures Callbacks(kb) == ["find_nearest_office", "find_best_rate_office", "find_office_by_org", "main_menu"]
  {
    var builder := new Builder();
    builder.Row([Button("Find nearest office (share location)", "find_nearest_office")]);
    builder.Row([Button("Find nearest office with best rates (share location)", "find_best_rate_office")]);
    builder.Row([Button("Show all offices of a chosen organization", "find_office_by_org")]);
    builder.Row([BackButton]);
    kb := builder.rows;
    CallbacksOfSingles(kb);
  }

  /** `get_location_or_fallback_keyboard`. */
  method LocationOrFallbackKeyboard() returns (kb: seq<seq<Button>>)
    ensures Callbacks(kb) == ["share_location", "find_office_by_org", "main_menu"]
  {
    var builder := new Builder();
    builder.Row([Button("Share location", "share_location")]);
    builder.Row([Button("List organizations", "find_office_by_org")]);
    builder.Row([BackButton]);
    kb := builder.rows;
    CallbacksOfSingles(kb);
  }

  /** With one button per row, the callbacks are the rows' callbacks in order. */
  lemma {:induction false} CallbacksOfSingles(kb: seq<seq<Button>>)
    requires forall i :: 0 <= i < |kb| ==> |kb[i]| == 1
    ensures |Callbacks(kb)| == |kb|
    ensures forall i :: 0 <= i < |kb| ==> Callbacks(kb)[i] == kb[i][0].callbackData
    decreases |kb|
  {
    if kb != [] {
      CallbacksOfSingles(kb[..|kb| - 1]);
    }
  }

  // ----- the handlers' `split(":")` undoes the encoding -----

  /** A part of `split` before the first separator holds no separator. */
  lemma {:induction false} SplitFirstPart(s: string, sep: char)
    ensures sep !in Split(s, sep)[0]
    ensures sep in s ==> |Split(s, sep)[0]| < |s|
    decreases |s|
  {
    if |s| > 0 && s[0] != sep {
      SplitFirstPart(s[1..], sep);
      if sep in s {
        assert sep in s[1..] by {
          var i :| 0 <= i < |s| && s[i] == sep;
          assert s[1..][i - 1] == sep;
        }
      }
    }
  }

  /** `data.split(":")[1]` recovers the item exactly when the item holds no ':' (for a prefix without ':'). */
  lemma CallbackRoundTrip(prefix: string, item: string)
    requires ':' !in prefix
    ensures |Split(CallbackData(prefix, item), ':')| >= 2
    ensures ':' !in item ==> Split(CallbackData(prefix, item), ':') == [prefix, item]
    ensures Split(CallbackData(prefix, item), ':')[1] == item <==> ':' !in item
  {
    SplitConcat(prefix, ':', item);
    assert CallbackData(prefix, item) == prefix + [':'] + item;
    if ':' !in item {
      SplitNoSep(item, ':');
    } else {
      SplitFirstPart(item, ':');
    }
  }

  /** With prefix "find_best_get_currency:S" the data splits into exactly [prefix, S, G] when neither
      currency holds ':'. */
  lemma PairCallbackParts(sell: string, get: string)
    requires ':' !in sell && ':' !in get
    ensures Split(CallbackData("find_best_get_currency:" + sell, get), ':') == ["find_best_get_currency", sell, get]
  {
    var data := CallbackData("find_best_get_currency:" + sell, get);
    assert data == "find_best_get_currency" + [':'] + (sell + [':'] + get);
    SplitConcat("find_best_get_currency", ':', sell + [':'] + get);
    SplitConcat(sell, ':', get);
    SplitNoSep(get, ':');
  }
}
