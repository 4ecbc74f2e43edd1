# ticker-tape, modelled in Dafny

ticker-tape reads a JSON configuration. The configuration maps friendly names to a stock ticker
and a list of tabs, each with a period and a number of points. For each tab the program:

- downloads a csv time series from AlphaVantage into `data/`;
- renders a line chart of it into `out/`;
- adds a link to it on `out/index.html`.

This project models the logic between those I/O steps and proves what it does.

- `wrappers.dfy`: `Option` and `Result`. These stand for Go's nil-able values and its
  `(value, error)` pairs.
- `gotext.dfy` (module `GoText`): the parts of Go's standard library that the core uses.
  - `strings.ToLower` and `strings.Title`, on ASCII.
  - `strings.Replace` with one-character patterns.
  - Decimal printing of ints.
  - `fmt.Sprintf` with the verbs `%s`, `%d` and `%w`.
  - Lemmas that reduce a format string to its pieces and operands.
- `alphavantage.dfy` (module `AlphaVantage`):
  - The query record and the hand-ordered request URL.
  - A reading of that URL's query string as the service sees it.
  - `SaveCsvData`, with the network as a parameter.
- `config.dfy` (module `Config`): validation of one configuration entry (`parseRawTickerConfig`,
  as a loop with early returns, proved against a declarative definition). Also `ReadConfig`, which
  loops over the entries in an order the model leaves open, as Go's map iteration does.
- `tickerdata.dfy` (module `TickerData`): `ReadData` from the decoded csv rows onward.
  - The header row is skipped.
  - Every data row gives a label and a midpoint value.
  - The value list is cut to its leading `points` entries.
  - The labels are not cut.
- `site.dfy` (module `Site`): `getFilePath`, the `data/`, `out/` and link paths, and the list of
  index-page links.

Some things the code does not do, and some it does in a particular way, which the model keeps:

- The chart series is the **leading** `points` rows of the download. The code does not
  reverse it, round its values or compute an axis range.
- The x-axis labels are not windowed: they cover every data row.
- `SaveCsvData` issues the GET before it checks that the format is csv.
- `data[0:points]` is bounded by the capacity of the slice's backing array, not by the number
  of data rows (see Findings).

## Model

| member | source | states |
|---|---|---|
| AlphaVantage.UrlFormatStencil | alphavantage-api/main.go:11-12 | The format constant is the endpoint followed by `function=`, `&symbol=`, `&apikey=`, `&datatype=`, each with one `%s` verb |
| AlphaVantage.UrlLayout | alphavantage-api/main.go:44-47 | The request URL `GetUrlHacky(q)` (the model of `getUrlHacky`) is exactly `BaseUrl + "function=" + Function + "&symbol=" + Ticker + "&apikey=" + ApiKey + "&datatype=" + DataType`: fixed order, values inserted verbatim without escaping |
| AlphaVantage.UrlIgnoresOutput | alphavantage-api/main.go:14-20 | Two queries that differ only in their output tier request the same URL: the tier is never transmitted |
| AlphaVantage.UrlQueryString | alphavantage-api/main.go:45-47 | The URL starts with the endpoint and its remainder is the four key=value parameters |
| AlphaVantage.QueryParamsOfUrl | alphavantage-api/main.go:44-47 | When no value contains `&`, splitting the query string gives exactly the parameters function, symbol, apikey, datatype, in that order, with the query's values, and no outputsize |
| GoText.SprintfWrapped | alphavantage-api/main.go:32 | A message that wraps an error with `%w` is its prefix followed by the error's text, as for `failed to read data ` and `unable to parse the csv data: ` |
| AlphaVantage.SaveCsvData | alphavantage-api/main.go:24-37 | The URL of the query is always requested. A format other than csv aborts (panic), whatever the download did. For a csv query: exactly when the GET failed, the nil body is read and the call aborts; exactly when reading the body fails, the result is the error `failed to read data ` followed by the cause. Otherwise the bytes read are written unchanged and the writer's error is returned |
| GoText.LowerOfTitle | config/main.go:92 | Title-casing keeps the length and changes only letter case, so the lower-cased period is unchanged |
| GoText.NatDecimalRoundTrip | main.go:146 | The decimal spelling of a tab index is non-empty digits with no leading zero, and reads back to the index |
| GoText.NatDecimalInjective | main.go:146 | Different indexes are spelled differently |
| GoText.SprintfStencil | config/main.go:68-69 | Formatting a string of literal pieces and verbs with one operand per verb puts each operand's text in place of its verb |
| Config.FirstInvalidTab | config/main.go:58-83 | The index of the first rejected tab (unknown period or at most 3 points), with every tab before it accepted; none exactly when every tab is accepted |
| Config.ParseRawTickerConfig | config/main.go:51-98 | The loop with early returns computes exactly `TickerConfigs`: the error for zero tabs, the error of the first rejected tab, or one configuration per tab |
| Config.TickerConfigsSucceed | config/main.go:51-98 | `TickerConfigs`, the declarative definition of what `parseRawTickerConfig` returns: an entry parses if and only if it has at least one tab and every tab has a known period and more than 3 points |
| Config.TickerConfigsContents | config/main.go:84-94 | On success of `TickerConfigs`: one configuration per tab, in tab order. Each carries the api key, the entry's ticker, `csv`, the tab's points, the title-cased period, the period's series function and its output tier |
| Config.TickerConfigsFirstError | config/main.go:52-76 | A failing entry reports `zero tabs` exactly when it has no tabs. Otherwise it reports its first rejected tab by index: the period error when the period is unknown (even if the points are also bad), else the points error |
| Config.SeriesFunctionMapping | config/main.go:60-70 | daily, weekly and monthly, in any case, map to `TIME_SERIES_DAILY`, `_WEEKLY` and `_MONTHLY`; every other period is rejected |
| Config.SeriesFunctionIgnoresCase | config/main.go:60-92 | A period, its lower-cased form and its title-cased stored form select the same series function |
| Config.OutputTierCases | config/main.go:72-83 | The tier is empty for weekly and monthly, `compact` for daily up to 100 points, and `full` for daily above 100 |
| Config.InvalidPeriodMessage | config/main.go:67-69 | `Message`, the error text of the model: for an unknown period the text is `invalid period '<period>' in config (index <i>)` |
| Config.InvalidPointsMessage | config/main.go:74-76 | `Message` for too few points: the text is `invalid num of points '<points>' in config of (index <i>)` |
| Config.FailedToParseMessage | config/main.go:41-43 | `Message` for a failing entry: a failing entry's error is `failed to parse '<name>': ` followed by the inner error's text |
| Config.ReadConfig | config/main.go:27-49 | An empty api key fails first, before decoding. A decoding error is returned as it is. Otherwise the call succeeds if and only if every entry parses, and then the keys are exactly the input's names, each mapped to its parsed tabs. On failure the error wraps the name of some failing entry and that entry's error |
| Config.ParsedTabQuery | config/main.go:84-91 | A parsed tab's URL asks for its period's series, the entry's ticker, the api key and csv, so the tab always passes the csv-only guard of the download |
| TickerData.FirstShortRow | tickerdata/main.go:30-33 | The first data row lacking a low column, with every data row before it complete; none exactly when all are complete |
| TickerData.CollectRows | tickerdata/main.go:28-38 | With no rows at all the loop panics (`rows[1:]`). A short row makes it panic at the first such row. Otherwise it yields one label (column 0) and one point (midpoint of high and low, symbol = ticker) per data row, in row order |
| TickerData.SliceWindow | tickerdata/main.go:43 | The slice exists if and only if 0 <= points <= capacity. It has `points` entries: the leading ones of the series, then zero points past the series' end |
| TickerData.ReadData | tickerdata/main.go:21-48 | A decoding error returns `unable to parse the csv data: ` followed by the cause, and no data. The panics are classified. Success holds if and only if the rows decode, there is a header, every data row is complete and 0 <= points <= capacity. Then: name, ticker, period and points are copied; the labels are every data row's column 0 (|rows| - 1 of them, not windowed); there are `points` values, the leading rows' midpoints then zero points |
| TickerData.BlankPaddingExample | tickerdata/main.go:43 | With 5 data rows, a capacity of 8 and 7 points, the result holds two zero points after the series |
| TickerData.ReadDataWithinSeries | tickerdata/main.go:40-47 | The corrected reading classifies decoding errors and panics as `ReadData` does, and succeeds exactly when 0 <= points <= number of data rows, and then every value is a data row's midpoint |
| TickerData.BlankPaddingRejected | tickerdata/main.go:43 | The corrected reading rejects the request of the padding example |
| Site.ReplaceChainSanitizes | main.go:143-146 | The chain of four replacements is the one-pass sanitisation: `.`, space and `\` become `-` |
| Site.GetFilePathLayout | main.go:142-147 | `GetFilePath`, the model of `getFilePath`: `GetFilePath(name, i, ext) == Sanitize(name) + "-" + decimal(i) + ext` |
| Site.SanitizeKeepsSafe | main.go:143-146 | Sanitising keeps the length and every other character, and puts `-` in place of each `.`, space and `\` |
| Site.SanitizeSafe | main.go:143-146 | A sanitised name has no `.`, space or `\` |
| Site.SanitizeIdempotent | main.go:143-146 | Sanitising twice is sanitising once |
| Site.FinalReplaceRedundant | main.go:146 | The last replacement of `.` finds none: it changes nothing |
| Site.FilePathIndexInjective | main.go:142-147 | Two tabs of one name get different file names |
| Site.FilePathCollision | main.go:142-147 | `Acme.Inc` and `Acme Inc` share their file names, so two such entries overwrite each other's files |
| Site.LinkResolvesToChart | main.go:86-112 | A link is `./` + the chart file name, and resolved against `out/` it is the path the chart was saved to |
| Site.DataAndChartsApart | main.go:58-86 | A download path is never a chart path |
| Site.LinkText | main.go:116 | A link's text is `<name> (<period>)` |
| Site.HtmlLinks | main.go:105-118 | The names are visited once each, in some order. The list is, name by name, one link per tab in tab order. Every tab of every name has its link, and every link is some tab's link |
| Site.LinksComplete | main.go:110-118 | Every tab of every name has its link in the list |
| Site.LinksSound | main.go:110-118 | Every link in the list is the link of some tab of some name |
| Site.LinksOfEveryName | main.go:110-118 | When every name is visited, the list holds exactly the links of every tab of every name |
| Site.LinksCount | main.go:110-118 | The list has one link per tab |

## Left out

- JSON decoding (`json.Unmarshal`): `Config.ReadConfig` receives the decoded map or the decoder's error message.
- CSV decoding (`csv.Reader.ReadAll`): `TickerData.ReadData` receives the decoded rows or the decoder's error message. Field-count checks of the csv reader are part of that decoding.
- HTTP: `get`, `http.Get`, the status-code check and `ioutil.ReadAll` are not modelled. `AlphaVantage.SaveCsvData` receives what the download produced: nothing when the GET failed, otherwise the result of reading the body. It also receives the writer's error. The error of `get` is dropped by the source and by the model alike.
- `getUrl` builds its query through the third-party go-querystring library, which is not part of this model. The program uses `getUrlHacky`.
- `strconv.ParseFloat`: the parser is a parameter that answers a real or nothing; nothing counts as 0. Float rounding, NaN, and the infinities returned on range errors are not modelled. `(high + low) / 2` is exact real arithmetic.
- `strings.ToLower` and `strings.Title` are modelled on ASCII letters only. Non-ASCII characters pass through unchanged and count as word characters.
- `fmt.Sprintf` is modelled only for the verbs the program uses. The model does not check a verb against its operand's type. It drops surplus operands without reporting them.
- Go map iteration order: `Config.ReadConfig` and `Site.HtmlLinks` pick the next name nondeterministically. When several entries fail, which name is reported is left open.
- `TickerData.ReadData`: the capacity that `append` leaves the point slice with is a parameter. The run-time's growth policy is not modelled; only capacity >= length is required.
- `TickerData.ReadData`: a data row lacking column 0, 2 or 3 panics at a different statement in the source. The model reports one `ShortRow` panic at that row for all three.
- The goroutines, wait groups and file creation, truncation and writing of `saveToLocal` are not modelled (concurrency and file I/O). Only the paths they use are modelled.
- `CreateLineChart` (third-party chart rendering), the index page's HTML template, `generateBarItems` (random and unused), `main`, `readConfig`, `parseConfig` and `failIfError` (process exit) are not modelled.
- Go's 64-bit `int` width: points and indexes are unbounded integers. The code only compares them and prints them, so no wrap-around can arise.

## Findings

| source | as written | input that shows it | evidently intended | confidence | as-written member | corrected member |
|---|---|---|---|---|---|---|
| tickerdata/main.go:43 | `data[0:points]` is bounded by the slice's capacity, so asking for more points than there are data rows, but no more than the capacity, succeeds and fills the chart with zero-valued points | a download of a header and 5 data rows (Go's doubling growth leaves a capacity of 8) with a tab of 7 points: the chart gets 2 blank points | the window lies within the series: too few rows is an error, and every plotted value comes from a data row | medium; not executed | TickerData.BlankPaddingExample | TickerData.ReadDataWithinSeries |
