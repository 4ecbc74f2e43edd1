/** The configuration: a decoded JSON map from friendly names to a ticker and
    its tabs (period and number of points), validated and turned into one
    query per tab. JSON decoding itself is not modelled: ReadConfig receives
    its outcome. */
module Config {
  import opened Wrappers
  import opened GoText
  import AlphaVantage

  datatype RawTab = RawTab(period: string, points: int)

  datatype RawTickerConfig = RawTickerConfig(ticker: string, tabs: seq<RawTab>)

  type RawConfig = map<string, RawTickerConfig>

  /** One tab ready to be fetched and charted. */
  datatype TickerConfig = TickerConfig(
    queryConfig: AlphaVantage.TickerQueryConfig,
    period: string,
    points: int)

  type Config = map<string, seq<TickerConfig>>

  /** The errors ReadConfig can return; FailedToParse wraps the error of one
      entry with its friendly name. */
  datatype ConfigError =
    | ApiKeyNotSet
    | Json(message: string)
    | ZeroTabs
    | InvalidPeriod(period: string, index: nat)
    | InvalidPoints(points: int, index: nat)
    | FailedToParse(name: string, cause: ConfigError)

  /** The format strings of the errors, each the same text as one literal,
      spelled in short pieces. */
  const InvalidPeriodFormat := "invalid period '" + "%s" + "' in config (index " + "%d" + ")"
  const InvalidPointsFormat := "invalid num of points '" + "%d" + "' in config of (index " + "%d" + ")"
  const FailedToParseFormat := "failed to parse '" + "%s" + "': " + "%w" + ""

  /** The text of an error (its Error() string). */
  function Message(e: ConfigError): string {
    match e
    case ApiKeyNotSet => "api key is not set"
    case Json(m) => m
    case ZeroTabs => "zero tabs in config"
    case InvalidPeriod(p, i) => Sprintf(InvalidPeriodFormat, [Str(p), Int(i)])
    case InvalidPoints(n, i) => Sprintf(InvalidPointsFormat, [Int(n), Int(i)])
    case FailedToParse(name, cause) => Sprintf(FailedToParseFormat, [Str(name), Str(Message(cause))])
  }

  // ---------------------------------------------------------------------
  // One tab
  // ---------------------------------------------------------------------

  /** The AlphaVantage series function of a period, matched case-insensitively. */
  function SeriesFunction(period: string): Option<string> {
    var p := ToLower(period);
    if p == "daily" then Some("TIME_SERIES_DAILY")
    else if p == "weekly" then Some("TIME_SERIES_WEEKLY")
    else if p == "monthly" then Some("TIME_SERIES_MONTHLY")
    else None
  }

  /** The output-size tier of a tab that passed the points check. */
  function OutputTier(period: string, points: int): string {
    if ToLower(period) != "daily" then ""
    else if points <= 100 then "compact"
    else "full"
  }

  /** A tab is accepted when its period is known and it asks for more than 3 points. */
  predicate ValidTab(tab: RawTab) {
    SeriesFunction(tab.period).Some? && tab.points > 3
  }

  /** The error of a rejected tab: the period is checked before the points. */
  function TabError(tab: RawTab, index: nat): ConfigError {
    if SeriesFunction(tab.period).None? then InvalidPeriod(tab.period, index)
    else InvalidPoints(tab.points, index)
  }

  /** The configuration built from an accepted tab. */
  function TabConfig(tab: RawTab, ticker: string, apikey: string): TickerConfig
    requires ValidTab(tab)
  {
    TickerConfig(
      AlphaVantage.TickerQueryConfig(apikey, ticker, SeriesFunction(tab.period).value,
                                     OutputTier(tab.period, tab.points), "csv"),
      Title(tab.period),
      tab.points)
  }

  /** The index of the first rejected tab, if any. */
  function FirstInvalidTab(tabs: seq<RawTab>): (r: Option<nat>)
    ensures r.Some? ==> r.value < |tabs| && !ValidTab(tabs[r.value])
                        && forall j :: 0 <= j < r.value ==> ValidTab(tabs[j])
    ensures r.None? ==> forall j :: 0 <= j < |tabs| ==> ValidTab(tabs[j])
  {
    if tabs == [] then None
    else if !ValidTab(tabs[0]) then Some(0)
    else match FirstInvalidTab(tabs[1..])
      case None => None
      case Some(i) => Some(i + 1)
  }

  /** What parsing one entry yields: an error for an entry without tabs or
      for its first rejected tab, otherwise one configuration per tab. */
  function TickerConfigs(raw: RawTickerConfig, apikey: string): Result<seq<TickerConfig>, ConfigError> {
    if |raw.tabs| == 0 then Err(ZeroTabs)
    else match FirstInvalidTab(raw.tabs)
      case Some(i) => Err(TabError(raw.tabs[i], i))
      case None => Ok(seq(|raw.tabs|, i requires 0 <= i < |raw.tabs| => TabConfig(raw.tabs[i], raw.ticker, apikey)))
  }

  /** parseRawTickerConfig: walks the tabs in order, appending one
      configuration per tab and returning at the first rejected one. */
  method ParseRawTickerConfig(raw: RawTickerConfig, apikey: string)
    returns (r: Result<seq<TickerConfig>, ConfigError>)
    ensures r == TickerConfigs(raw, apikey)
  {
    if |raw.tabs| == 0 {
      return Err(ZeroTabs);
    }
    var result: seq<TickerConfig> := [];
    for i := 0 to |raw.tabs|
      invariant |result| == i
      invariant forall j :: 0 <= j < i ==>
                  ValidTab(raw.tabs[j]) && result[j] == TabConfig(raw.tabs[j], raw.ticker, apikey)
    {
      var tab := raw.tabs[i];
      var seriesFunction: string;
      var lower := ToLower(tab.period);
      if lower == "daily" {
        seriesFunction := "TIME_SERIES_DAILY";
      } else if lower == "weekly" {
        seriesFunction := "TIME_SERIES_WEEKLY";
      } else if lower == "monthly" {
        seriesFunction := "TIME_SERIES_MONTHLY";
      } else {
        return Err(InvalidPeriod(tab.period, i));
      }
      var output: string;
      if tab.points <= 3 {
        return Err(InvalidPoints(tab.points, i));
      } else if lower != "daily" {
        output := "";
      } else if tab.points <= 100 {
        output := "compact";
      } else {
        output := "full";
      }
      result := result + [TickerConfig(
        AlphaVantage.TickerQueryConfig(apikey, raw.ticker, seriesFunction, output, "csv"),
        Title(tab.period),
        tab.points)];
    }
    assert result == seq(|raw.tabs|, i requires 0 <= i < |raw.tabs| => TabConfig(raw.tabs[i], raw.ticker, apikey));
    return Ok(result);
  }

  /** ReadConfig. `decoded` is the outcome of decoding the JSON document. The
      api key is checked before anything else. The entries are visited in an
      order Go does not fix; the first entry that fails ends the call with
      its error wrapped in its name, so when several fail, which one is
      reported is not determined. */
  method ReadConfig(decoded: Result<RawConfig, string>, apikey: string)
    returns (r: Result<Config, ConfigError>)
    ensures apikey == "" ==> r == Err(ApiKeyNotSet)
    ensures apikey != "" && decoded.Err? ==> r == Err(Json(decoded.error))
    ensures apikey != "" && decoded.Ok? ==>
              (r.Ok? <==> forall name :: name in decoded.value ==> TickerConfigs(decoded.value[name], apikey).Ok?)
    ensures r.Ok? ==>
              apikey != "" && decoded.Ok? && r.value.Keys == decoded.value.Keys
              && forall name :: name in r.value ==> r.value[name] == TickerConfigs(decoded.value[name], apikey).value
    ensures apikey != "" && decoded.Ok? && r.Err? ==>
              exists name :: name in decoded.value && TickerConfigs(decoded.value[name], apikey).Err?
                             && r.error == FailedToParse(name, TickerConfigs(decoded.value[name], apikey).error)
  {
    if |apikey| == 0 {
      return Err(ApiKeyNotSet);
    }
    if decoded.Err? {
      return Err(Json(decoded.error));
    }
    var rawConfig := decoded.value;
    var config: Config := map[];
    var remaining := rawConfig.Keys;
    while remaining != {}
      invariant remaining <= rawConfig.Keys
      invariant config.Keys == rawConfig.Keys - remaining
      invariant forall name :: name in config ==>
                  TickerConfigs(rawConfig[name], apikey).Ok? && config[name] == TickerConfigs(rawConfig[name], apikey).value
      decreases |remaining|
    {
      var name :| name in remaining;
      var parsed := ParseRawTickerConfig(rawConfig[name], apikey);
      if parsed.Err? {
        return Err(FailedToParse(name, parsed.error));
      }
      config := config[name := parsed.value];
      remaining := remaining - {name};
    }
    return Ok(config);
  }

  // ---------------------------------------------------------------------
  // Properties of parsing one entry
  // ---------------------------------------------------------------------

  /** An entry parses exactly when it has at least one tab and every tab has
      a known period and more than 3 points. */
  lemma TickerConfigsSucceed(raw: RawTickerConfig, apikey: string)
    ensures TickerConfigs(raw, apikey).Ok?
        <==> |raw.tabs| > 0 && forall j :: 0 <= j < |raw.tabs| ==> ValidTab(raw.tabs[j])
  {
  }

  /** On success there is one configuration per tab, in tab order, carrying
      the api key, the entry's ticker, the csv format, the tab's points, the
      title-cased period, the period's series function and its tier. */
  lemma TickerConfigsContents(raw: RawTickerConfig, apikey: string)
    requires TickerConfigs(raw, apikey).Ok?
    ensures var cs := TickerConfigs(raw, apikey).value;
      |cs| == |raw.tabs|
      && forall i :: 0 <= i < |cs| ==>
           var q := cs[i].queryConfig;
           q.apiKey == apikey && q.ticker == raw.ticker && q.dataType == "csv"
           && Some(q.seriesFunction) == SeriesFunction(raw.tabs[i].period)
           && q.output == OutputTier(raw.tabs[i].period, raw.tabs[i].points)
           && cs[i].points == raw.tabs[i].points && cs[i].points > 3
           && cs[i].period == Title(raw.tabs[i].period)
  {
  }

  /** A failing entry reports either that it has no tabs, or its first
      rejected tab by index: an unknown period before too few points. */
  lemma TickerConfigsFirstError(raw: RawTickerConfig, apikey: string)
    requires TickerConfigs(raw, apikey).Err?
    ensures var e := TickerConfigs(raw, apikey).error;
      (|raw.tabs| == 0 <==> e == ZeroTabs)
      && (|raw.tabs| > 0 ==>
            exists i :: 0 <= i < |raw.tabs| && !ValidTab(raw.tabs[i])
                        && (forall j :: 0 <= j < i ==> ValidTab(raw.tabs[j]))
                        && e == (if SeriesFunction(raw.tabs[i].period).None?
                                 then InvalidPeriod(raw.tabs[i].period, i)
                                 else InvalidPoints(raw.tabs[i].points, i)))
  {
  }

  /** The three periods, in any mix of upper and lower case, and nothing else. */
  lemma SeriesFunctionMapping(period: string)
    ensures SeriesFunction(period) == Some("TIME_SERIES_DAILY") <==> ToLower(period) == "daily"
    ensures SeriesFunction(period) == Some("TIME_SERIES_WEEKLY") <==> ToLower(period) == "weekly"
    ensures SeriesFunction(period) == Some("TIME_SERIES_MONTHLY") <==> ToLower(period) == "monthly"
    ensures SeriesFunction(period).None?
        <==> ToLower(period) != "daily" && ToLower(period) != "weekly" && ToLower(period) != "monthly"
  {
  }

  /** Case does not matter: a period and its lower-cased or title-cased form
      select the same series function. */
  lemma SeriesFunctionIgnoresCase(period: string)
    ensures SeriesFunction(ToLower(period)) == SeriesFunction(period)
    ensures SeriesFunction(Title(period)) == SeriesFunction(period)
  {
    LowerIdempotent(period);
    LowerOfTitle(period);
  }

  /** The tier: none for weekly and monthly, compact for daily up to 100
      points, full for daily beyond. */
  lemma OutputTierCases(period: string, points: int)
    requires SeriesFunction(period).Some?
    ensures OutputTier(period, points) == "" <==> SeriesFunction(period) != Some("TIME_SERIES_DAILY")
    ensures OutputTier(period, points) == "compact"
        <==> SeriesFunction(period) == Some("TIME_SERIES_DAILY") && points <= 100
    ensures OutputTier(period, points) == "full"
        <==> SeriesFunction(period) == Some("TIME_SERIES_DAILY") && points > 100
  {
  }

  // ---------------------------------------------------------------------
  // Error texts
  // ---------------------------------------------------------------------

  lemma InvalidPeriodMessage(period: string, index: nat)
    ensures Message(InvalidPeriod(period, index))
         == "invalid period '" + period + "' in config (index " + NatDecimal(index) + ")"
  {
    assert "%s" == ['%', 's'] && "%d" == ['%', 'd'];
    SprintfTwo("invalid period '", 's', "' in config (index ", 'd', ")", Str(period), Int(index));
  }

  lemma InvalidPointsMessage(points: int, index: nat)
    ensures Message(InvalidPoints(points, index))
         == "invalid num of points '" + IntDecimal(points) + "' in config of (index " + NatDecimal(index) + ")"
  {
    assert "%d" == ['%', 'd'];
    SprintfTwo("invalid num of points '", 'd', "' in config of (index ", 'd', ")", Int(points), Int(index));
  }

  /** A failing entry's error names the entry and ends with the inner error's text. */
  lemma FailedToParseMessage(name: string, cause: ConfigError)
    ensures Message(FailedToParse(name, cause)) == "failed to parse '" + name + "': " + Message(cause)
  {
    assert "%s" == ['%', 's'] && "%w" == ['%', 'w'];
    SprintfTwo("failed to parse '", 's', "': ", 'w', "", Str(name), Str(Message(cause)));
    assert "failed to parse '" + name + "': " + Message(cause) + "" == "failed to parse '" + name + "': " + Message(cause);
  }

  // ---------------------------------------------------------------------
  // What a parsed tab asks of the service
  // ---------------------------------------------------------------------

  /** Every parsed tab asks for its csv series with the entry's ticker and
      the api key, and so passes the csv-only guard of SaveCsvData. */
  lemma ParsedTabQuery(raw: RawTickerConfig, apikey: string, i: nat,
                       fetched: Option<Result<seq<bv8>, string>>, writeError: Option<string>)
    requires TickerConfigs(raw, apikey).Ok? && i < |raw.tabs|
    ensures var q := TickerConfigs(raw, apikey).value[i].queryConfig;
      AlphaVantage.GetUrlHacky(q)
        == AlphaVantage.BaseUrl + "function=" + SeriesFunction(raw.tabs[i].period).value
           + "&symbol=" + raw.ticker + "&apikey=" + apikey + "&datatype=" + "csv"
      && AlphaVantage.SaveCsvData(q, fetched, writeError).outcome != AlphaVantage.Panicked(AlphaVantage.NotCodedYet)
  {
    var q := TickerConfigs(raw, apikey).value[i].queryConfig;
    AlphaVantage.UrlLayout(q);
  }
}
