/** The AlphaVantage request: the query record built from the configuration,
    the hand-ordered request URL, and the csv-only guard of the download. */
module AlphaVantage {
  import opened Wrappers
  import opened GoText

  const BaseUrl := "https://www.alphavantage.co/query?"
  /** The endpoint followed by the four parameters, one `%s` verb for each
      value (spelled in parts, the same text as one literal). */
  const BaseUrlWithFormatStrings :=
    BaseUrl + "function=%s" + "&symbol=%s" + "&apikey=%s" + "&datatype=%s"

  /** One request: credential, symbol, series function, output-size tier and
      response format. */
  datatype TickerQueryConfig = TickerQueryConfig(
    apiKey: string,
    ticker: string,
    seriesFunction: string,
    output: string,
    dataType: string)

  /** The request URL, written with a format string because the service
      insists on the parameter order function, symbol, apikey, datatype. */
  function GetUrlHacky(q: TickerQueryConfig): string {
    Sprintf(BaseUrlWithFormatStrings, [Str(q.seriesFunction), Str(q.ticker), Str(q.apiKey), Str(q.dataType)])
  }

  const UrlPieces := [BaseUrl + "function=", "&symbol=", "&apikey=", "&datatype=", ""]

  lemma UrlFormatStencil()
    ensures BaseUrlWithFormatStrings == Stencil(UrlPieces, "ssss")
  {
  }

  lemma UrlFormatted(q: TickerQueryConfig)
    ensures GetUrlHacky(q)
         == Interleave(UrlPieces, [Str(q.seriesFunction), Str(q.ticker), Str(q.apiKey), Str(q.dataType)])
  {
    UrlFormatStencil();
    SprintfStencil(UrlPieces, "ssss", [Str(q.seriesFunction), Str(q.ticker), Str(q.apiKey), Str(q.dataType)]);
  }

  lemma UrlInterleaved(a: string, b: string, c: string, d: string)
    ensures Interleave(UrlPieces, [Str(a), Str(b), Str(c), Str(d)])
         == UrlPieces[0] + (a + ("&symbol=" + (b + ("&apikey=" + (c + ("&datatype=" + d))))))
  {
    var pieces, args := UrlPieces, [Str(a), Str(b), Str(c), Str(d)];
    assert Interleave(pieces[4..], args[4..]) == "";
    assert Interleave(pieces[3..], args[3..]) == "&datatype=" + (d + "");
    assert d + "" == d;
    assert Interleave(pieces[2..], args[2..]) == "&apikey=" + (c + Interleave(pieces[3..], args[3..]));
    assert Interleave(pieces[1..], args[1..]) == "&symbol=" + (b + Interleave(pieces[2..], args[2..]));
  }

  lemma UrlReassociated(a: string, b: string, c: string, d: string)
    ensures UrlPieces[0] + (a + ("&symbol=" + (b + ("&apikey=" + (c + ("&datatype=" + d))))))
         == BaseUrl + "function=" + a + "&symbol=" + b + "&apikey=" + c + "&datatype=" + d
  {
  }

  /** The URL is the endpoint followed by the four parameters in the fixed
      order function, symbol, apikey, datatype, each value inserted as it is;
      the output tier is not among them. */
  lemma UrlLayout(q: TickerQueryConfig)
    ensures GetUrlHacky(q)
         == BaseUrl + "function=" + q.seriesFunction + "&symbol=" + q.ticker
            + "&apikey=" + q.apiKey + "&datatype=" + q.dataType
  {
    UrlFormatted(q);
    UrlInterleaved(q.seriesFunction, q.ticker, q.apiKey, q.dataType);
    UrlReassociated(q.seriesFunction, q.ticker, q.apiKey, q.dataType);
  }

  /** The output tier never reaches the URL: two queries that differ only in
      it request the same URL. */
  lemma UrlIgnoresOutput(q: TickerQueryConfig, output: string)
    ensures GetUrlHacky(q.(output := output)) == GetUrlHacky(q)
  {
  }

  // ---------------------------------------------------------------------
  // Reading the query string back, as the service sees it
  // ---------------------------------------------------------------------

  /** The pieces of s between the separators (strings.Split with a
      one-character separator): always at least one piece. */
  function Split(s: string, sep: char): (pieces: seq<string>)
    ensures |pieces| >= 1
    decreases |s|
  {
    if s == [] then [""]
    else
      var rest := Split(s[1..], sep);
      if s[0] == sep then [""] + rest else [[s[0]] + rest[0]] + rest[1..]
  }

  /** A key=value parameter cut at its first '=' (a missing '=' gives an empty value). */
  function Cut(s: string, sep: char): (string, string)
    decreases |s|
  {
    if s == [] then ("", "")
    else if s[0] == sep then ("", s[1..])
    else
      var (k, v) := Cut(s[1..], sep);
      ([s[0]] + k, v)
  }

  /** The parameters of a URL on the endpoint, in the order they appear. */
  function QueryParams(url: string): Option<seq<(string, string)>> {
    if BaseUrl <= url then
      var pieces := Split(url[|BaseUrl|..], '&');
      Some(seq(|pieces|, i requires 0 <= i < |pieces| => Cut(pieces[i], '=')))
    else None
  }

  lemma {:induction false} SplitNoSeparator(s: string, sep: char)
    requires sep !in s
    ensures Split(s, sep) == [s]
    decreases |s|
  {
    if s != [] {
      assert sep !in s[1..];
      SplitNoSeparator(s[1..], sep);
      assert s == [s[0]] + s[1..];
    }
  }

  /** Text without a separator in front of y joins y's first piece. */
  lemma {:induction false} SplitLeading(x: string, y: string, sep: char)
    requires sep !in x
    ensures Split(x + y, sep) == [x + Split(y, sep)[0]] + Split(y, sep)[1..]
    decreases |x|
  {
    var ys := Split(y, sep);
    if x == [] {
      assert x + y == y && x + ys[0] == ys[0];
      assert ys == [ys[0]] + ys[1..];
    } else {
      var s := x + y;
      assert s[0] == x[0] && s[1..] == x[1..] + y;
      assert sep !in x[1..];
      SplitLeading(x[1..], y, sep);
      Assoc([x[0]], x[1..], Split(y, sep)[0]);
      assert x == [x[0]] + x[1..];
    }
  }

  /** A separator in front of y starts an empty piece before y's pieces. */
  lemma SplitAtSeparator(y: string, sep: char)
    ensures Split([sep] + y, sep) == [""] + Split(y, sep)
  {
  }

  /** A separator followed by a key starts a new piece. */
  lemma SplitNextParam(key: string, rest: string)
    requires '&' !in key
    ensures Split("&" + key + rest, '&') == [""] + Split(key + rest, '&')
  {
    Assoc("&", key, rest);
    SplitAtSeparator(key + rest, '&');
  }

  lemma {:induction false} CutAtFirst(a: string, b: string, sep: char)
    requires sep !in a
    ensures Cut(a + [sep] + b, sep) == (a, b)
    decreases |a|
  {
    var s := a + [sep] + b;
    if a == [] {
      assert s == [sep] + b;
      assert s[1..] == b;
    } else {
      assert s[0] == a[0] && s[1..] == a[1..] + [sep] + b;
      assert sep !in a[1..];
      CutAtFirst(a[1..], b, sep);
      assert a == [a[0]] + a[1..];
    }
  }

  lemma CutParam(key: string, v: string)
    requires '=' !in key
    ensures Cut(key + "=" + v, '=') == (key, v)
  {
    CutAtFirst(key, v, '=');
  }

  /** The URL is the endpoint followed by the query string. */
  lemma UrlQueryString(q: TickerQueryConfig)
    ensures BaseUrl <= GetUrlHacky(q)
    ensures GetUrlHacky(q)[|BaseUrl|..]
         == "function=" + (q.seriesFunction + ("&symbol=" + (q.ticker + ("&apikey=" + (q.apiKey + ("&datatype=" + q.dataType))))))
  {
    UrlFormatted(q);
    UrlInterleaved(q.seriesFunction, q.ticker, q.apiKey, q.dataType);
    var tail := "function=" + (q.seriesFunction + ("&symbol=" + (q.ticker + ("&apikey=" + (q.apiKey + ("&datatype=" + q.dataType))))));
    Assoc(BaseUrl, "function=", q.seriesFunction + ("&symbol=" + (q.ticker + ("&apikey=" + (q.apiKey + ("&datatype=" + q.dataType))))));
    assert GetUrlHacky(q) == BaseUrl + tail;
  }

  /** `&key=value` followed by a rest that starts with a separator. */
  lemma SplitLink(key: string, v: string, rest: string)
    requires '&' !in key && '&' !in v && Split(rest, '&')[0] == ""
    ensures Split("&" + key + (v + rest), '&') == ["", key + v] + Split(rest, '&')[1..]
  {
    SplitNextParam(key, v + rest);
    SplitLeading(v, rest, '&');
    SplitLeading(key, v + rest, '&');
    assert v + "" == v;
  }

  lemma SplitLastParam(d: string)
    requires '&' !in d
    ensures Split("&datatype=" + d, '&') == ["", "datatype=" + d]
  {
    assert "&" + "datatype=" == "&datatype=";
    SplitNextParam("datatype=", d);
    SplitNoSeparator("datatype=" + d, '&');
  }

  lemma SplitLastTwoParams(k: string, d: string)
    requires '&' !in k && '&' !in d
    ensures Split("&apikey=" + (k + ("&datatype=" + d)), '&') == ["", "apikey=" + k, "datatype=" + d]
  {
    assert "&" + "apikey=" == "&apikey=";
    SplitLastParam(d);
    SplitLink("apikey=", k, "&datatype=" + d);
  }

  lemma SplitLastThreeParams(t: string, k: string, d: string)
    requires '&' !in t && '&' !in k && '&' !in d
    ensures Split("&symbol=" + (t + ("&apikey=" + (k + ("&datatype=" + d)))), '&')
         == ["", "symbol=" + t, "apikey=" + k, "datatype=" + d]
  {
    assert "&" + "symbol=" == "&symbol=";
    SplitLastTwoParams(k, d);
    SplitLink("symbol=", t, "&apikey=" + (k + ("&datatype=" + d)));
  }

  /** The query string splits at its three '&' into the four parameters. */
  lemma SplitQueryString(f: string, t: string, k: string, d: string)
    requires '&' !in f && '&' !in t && '&' !in k && '&' !in d
    ensures Split("function=" + (f + ("&symbol=" + (t + ("&apikey=" + (k + ("&datatype=" + d)))))), '&')
         == ["function=" + f, "symbol=" + t, "apikey=" + k, "datatype=" + d]
  {
    var rest := "&symbol=" + (t + ("&apikey=" + (k + ("&datatype=" + d))));
    SplitLastThreeParams(t, k, d);
    SplitLeading(f, rest, '&');
    SplitLeading("function=", f + rest, '&');
    assert f + "" == f;
  }

  /** The parameters read from a URL whose query string has the four
      parameters in order. */
  lemma QueryParamsOfQueryString(url: string, f: string, t: string, k: string, d: string)
    requires '&' !in f && '&' !in t && '&' !in k && '&' !in d
    requires BaseUrl <= url
    requires url[|BaseUrl|..] == "function=" + (f + ("&symbol=" + (t + ("&apikey=" + (k + ("&datatype=" + d))))))
    ensures QueryParams(url) == Some([("function", f), ("symbol", t), ("apikey", k), ("datatype", d)])
  {
    SplitQueryString(f, t, k, d);
    CutParam("function", f);
    CutParam("symbol", t);
    CutParam("apikey", k);
    CutParam("datatype", d);
    assert "function" + "=" == "function=" && "symbol" + "=" == "symbol=";
    assert "apikey" + "=" == "apikey=" && "datatype" + "=" == "datatype=";
    var pieces := Split(url[|BaseUrl|..], '&');
    var params := seq(|pieces|, i requires 0 <= i < |pieces| => Cut(pieces[i], '='));
    assert params == [("function", f), ("symbol", t), ("apikey", k), ("datatype", d)];
  }

  /** When no value contains '&', the service reads exactly four parameters:
      function, symbol, apikey and datatype, in this order, with the values of
      the query; in particular there is no outputsize parameter. */
  lemma QueryParamsOfUrl(q: TickerQueryConfig)
    requires '&' !in q.seriesFunction && '&' !in q.ticker && '&' !in q.apiKey && '&' !in q.dataType
    ensures QueryParams(GetUrlHacky(q))
         == Some([("function", q.seriesFunction), ("symbol", q.ticker), ("apikey", q.apiKey), ("datatype", q.dataType)])
  {
    UrlQueryString(q);
    QueryParamsOfQueryString(GetUrlHacky(q), q.seriesFunction, q.ticker, q.apiKey, q.dataType);
  }

  // ---------------------------------------------------------------------
  // SaveCsvData
  // ---------------------------------------------------------------------

  datatype Panic = NotCodedYet | NilReader

  datatype SaveOutcome =
    | Panicked(cause: Panic)
    | ReadFailed(message: string)
    | Written(data: seq<bv8>, writeError: Option<string>)

  /** The URL requested and what became of the download. */
  datatype SaveRun = SaveRun(requested: string, outcome: SaveOutcome)

  /** The message of a failed body read, ahead of the cause. */
  const ReadFailedPrefix := "failed to read data "

  /** SaveCsvData. The network is a parameter: `fetched` is None when the GET
      failed (its error is dropped and the body reader is nil), otherwise the
      outcome of reading the body to its end; `writeError` is what the writer
      reports. The request is made before the format is checked; a format
      other than csv then aborts (a panic), as does reading a nil body. */
  function SaveCsvData(q: TickerQueryConfig, fetched: Option<Result<seq<bv8>, string>>,
                       writeError: Option<string>): (run: SaveRun)
    ensures run.requested == GetUrlHacky(q)
    ensures run.outcome == Panicked(NotCodedYet) <==> q.dataType != "csv"
    ensures run.outcome.Written? <==> q.dataType == "csv" && fetched.Some? && fetched.value.Ok?
    ensures run.outcome.Written? ==> run.outcome.data == fetched.value.value && run.outcome.writeError == writeError
    ensures run.outcome == Panicked(NilReader) <==> q.dataType == "csv" && fetched.None?
    ensures run.outcome.ReadFailed? <==> q.dataType == "csv" && fetched.Some? && fetched.value.Err?
    ensures run.outcome.ReadFailed? ==> run.outcome.message == ReadFailedPrefix + fetched.value.error
  {
    var url := GetUrlHacky(q);
    if q.dataType != "csv" then SaveRun(url, Panicked(NotCodedYet))
    else match fetched
      case None => SaveRun(url, Panicked(NilReader))
      case Some(Err(e)) =>
        SprintfWrapped(ReadFailedPrefix, e);
        SaveRun(url, ReadFailed(Sprintf(ReadFailedPrefix + "%w", [Str(e)])))
      case Some(Ok(data)) => SaveRun(url, Written(data, writeError))
  }
}
