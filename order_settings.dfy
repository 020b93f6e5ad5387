/** The order service's settings (order_service/src/settings.py): the shared fields
    with their defaults, and the two comma-separated list fields that the
    parse_list_from_str validator splits before validation. */
module OrderSettings {

  import opened Wrappers
  import opened Text
  import opened ServiceSettings

  /** A raw value handed to the "pre" validator: a str from the environment, an
      already-built list, or None. */
  datatype SettingValue = StrValue(s: string) | ListValue(items: seq<string>) | NoneValue

  /** [i.strip() for i in parts if i.strip()]. */
  function CleanItems(parts: seq<string>): (items: seq<string>)
    ensures |items| <= |parts|
    ensures forall i :: 0 <= i < |items| ==> items[i] != [] && Strip(items[i]) == items[i]
  {
    if parts == [] then []
    else
      var item := Strip(parts[0]);
      StripIdempotent(parts[0]);
      (if item != "" then [item] else []) + CleanItems(parts[1..])
  }

  /** parse_list_from_str: a str becomes its comma-separated items, stripped, empty
      ones dropped; any other value passes through unchanged. */
  function ParseListFromStr(v: SettingValue): (r: SettingValue)
    ensures !v.StrValue? ==> r == v
    ensures v.StrValue? ==> r.ListValue?
  {
    match v
    case StrValue(s) => ListValue(CleanItems(Split(s, ',')))
    case _ => v
  }

  /** Stripping only removes characters, so it adds no comma. */
  lemma StripAddsNothing(p: string, c: char)
    requires c !in p
    ensures c !in Strip(p)
  {
    var l := LStrip(p);
    var r := RStrip(l);
    assert l == p[|p| - |l|..];
    assert r == l[..|r|];
    forall i | 0 <= i < |r| ensures r[i] != c {
      assert r[i] == l[i] == p[|p| - |l| + i];
    }
  }

  /** The items of a cleaned list are exactly the non-empty stripped parts. */
  lemma {:induction false} CleanItemsMembers(parts: seq<string>, x: string)
    ensures x in CleanItems(parts) <==> x != "" && exists p :: p in parts && Strip(p) == x
    decreases |parts|
  {
    if parts != [] {
      var head, tail := parts[0], parts[1..];
      var item := Strip(head);
      assert CleanItems(parts) == (if item != "" then [item] else []) + CleanItems(tail);
      assert x in CleanItems(parts) <==> (item != "" && x == item) || x in CleanItems(tail);
      CleanItemsMembers(tail, x);
      assert forall p :: p in parts <==> p == head || p in tail by {
        assert parts == [head] + tail;
      }
    }
  }

  /** No item of a cleaned split holds the separator. */
  lemma {:induction false} CleanItemsSeparatorFree(parts: seq<string>, c: char)
    requires forall i :: 0 <= i < |parts| ==> c !in parts[i]
    ensures forall i :: 0 <= i < |CleanItems(parts)| ==> c !in CleanItems(parts)[i]
    decreases |parts|
  {
    if parts != [] {
      StripAddsNothing(parts[0], c);
      CleanItemsSeparatorFree(parts[1..], c);
    }
  }

  /** Cleaning a list that is already clean changes nothing. */
  lemma {:induction false} CleanItemsOfClean(items: seq<string>)
    requires forall i :: 0 <= i < |items| ==> items[i] != [] && Strip(items[i]) == items[i]
    ensures CleanItems(items) == items
    decreases |items|
  {
    if items != [] {
      CleanItemsOfClean(items[1..]);
      assert [items[0]] + items[1..] == items;
    }
  }

  /** Every parsed item is non-empty, has no surrounding whitespace and holds no comma. */
  lemma ParsedItems(s: string)
    ensures var items := ParseListFromStr(StrValue(s)).items;
            forall i :: 0 <= i < |items| ==> items[i] != [] && Strip(items[i]) == items[i] && ',' !in items[i]
  {
    CleanItemsSeparatorFree(Split(s, ','), ',');
  }

  /** Joining clean items with "," and parsing again gives the items back. */
  lemma ParseJoin(items: seq<string>)
    requires forall i :: 0 <= i < |items| ==> items[i] != [] && Strip(items[i]) == items[i] && ',' !in items[i]
    ensures ParseListFromStr(StrValue(Join(items, ","))) == ListValue(items)
  {
    if items == [] {
      assert Split("", ',') == [""];
      assert CleanItems([""]) == [] + CleanItems([]);
    } else {
      SplitJoin(items, ',');
      assert [','] == ",";
      CleanItemsOfClean(items);
    }
  }

  /** Re-parsing the ","-join of a parsed list gives the same list. */
  lemma ReparseJoin(s: string)
    ensures var items := ParseListFromStr(StrValue(s)).items;
            ParseListFromStr(StrValue(Join(items, ","))) == ParseListFromStr(StrValue(s))
  {
    ParsedItems(s);
    ParseJoin(ParseListFromStr(StrValue(s)).items);
  }

  /** The order service's settings: the shared ones plus CORS origins and trusted hosts. */
  datatype OrderServiceSettings = OrderServiceSettings(
    base: Settings,
    corsOrigins: Option<seq<string>>,
    trustedHosts: Option<seq<string>>)

  const ORDER_DEFAULTS := OrderServiceSettings(
    Settings("order_service", "development", "user", "pass", "rabbitmq", 5672, DEFAULT_EXCHANGE,
             "postgres", "postgres", "db", 5432, "order_service", 5, false, DEFAULT_LOG_LEVEL),
    None, None)

  /** The defaults satisfy the bounds; log level INFO, db port 5432, SSL off. */
  lemma OrderDefaultsValid()
    ensures Validate(ORDER_DEFAULTS.base) == Ok(ORDER_DEFAULTS.base)
    ensures ORDER_DEFAULTS.base.logLevel == INFO && ORDER_DEFAULTS.base.dbPort == 5432
  {
  }

  lemma DigitsOf5432()
    ensures IntToString(5432) == "5432"
  {
    assert NatToString(5) == "5";
    assert NatToString(54) == NatToString(5) + "4" == "54";
    assert NatToString(543) == NatToString(54) + "3" == "543";
    assert NatToString(5432) == NatToString(543) + "2" == "5432";
  }

  /** With the defaults, database_url is the PostgreSQL URL for host "db", without SSL. */
  lemma OrderDefaultUrl()
    ensures DatabaseUrl(ORDER_DEFAULTS.base)
            == "postgresql+asyncpg://" + "postgres" + ":" + "postgres" + "@" + "db" + ":" + "5432" + "/" + "order_service"
  {
    var b := ORDER_DEFAULTS.base;
    DigitsOf5432();
    assert DatabaseUrl(b) == PostgresUrl(b) + "";
  }
}
