/** The series of one chart, read from the rows of a decoded AlphaVantage
    csv download: the first row is the header, every other row is
    timestamp, open, high, low, close, volume. Csv decoding and float parsing
    are not modelled: ReadData receives the decoding's outcome and the
    parser as parameters. */
module TickerData {
  import opened Wrappers
  import opened GoText

  /** A chart point (opts.LineData). Blank is the zero value, with no value
      and an empty symbol. */
  datatype LineData = Point(value: real, symbol: string) | Blank

  datatype TickerData = TickerData(
    name: string,
    ticker: string,
    data: seq<LineData>,
    xAxisSeries: seq<string>,
    period: string,
    points: int)

  /** The run-time panics ReadData can end in: a download without even a
      header row, a data row (by its index among all rows) without a low
      column, a slice bound outside the backing array. */
  datatype Panic = NoHeaderRow | ShortRow(row: nat) | SliceOutOfRange

  datatype ReadOutcome =
    | Read(t: TickerData)
    | DecodeFailed(message: string)
    | Panicked(cause: Panic)

  /** strconv.ParseFloat with its error ignored: a string it rejects counts as 0. */
  function ParsedOrZero(parse: string -> Option<real>, s: string): real {
    match parse(s)
    case Some(v) => v
    case None => 0.0
  }

  /** The value of a data row: the midpoint of its high and low columns. */
  function Midpoint(row: seq<string>, parse: string -> Option<real>): real
    requires |row| >= 4
  {
    (ParsedOrZero(parse, row[2]) + ParsedOrZero(parse, row[3])) / 2.0
  }

  /** Every row after the header has at least the columns up to low. */
  predicate DataRowsComplete(rows: seq<seq<string>>) {
    forall k :: 1 <= k < |rows| ==> |rows[k]| >= 4
  }

  /** The index of the first data row without a low column, if any. */
  function FirstShortRow(rows: seq<seq<string>>, from: nat): (r: Option<nat>)
    requires 1 <= from <= |rows|
    ensures r.Some? ==> from <= r.value < |rows| && |rows[r.value]| < 4
                        && forall k :: from <= k < r.value ==> |rows[k]| >= 4
    ensures r.None? ==> forall k :: from <= k < |rows| ==> |rows[k]| >= 4
    decreases |rows| - from
  {
    if from == |rows| then None
    else if |rows[from]| < 4 then Some(from)
    else FirstShortRow(rows, from + 1)
  }

  /** The message of a csv decoding failure, ahead of the cause. */
  const DecodeFailedPrefix := "unable to parse the csv data: "

  /** The loop of ReadData over the rows after the header: one label (column
      0) and one point (the midpoint, with the ticker as symbol) per row, in
      row order; a row without a low column ends it in a panic. */
  method CollectRows(rows: seq<seq<string>>, ticker: string, parse: string -> Option<real>)
    returns (r: Result<(seq<LineData>, seq<string>), Panic>)
    ensures |rows| == 0 ==> r == Err(NoHeaderRow)
    ensures |rows| > 0 && FirstShortRow(rows, 1).Some? ==> r == Err(ShortRow(FirstShortRow(rows, 1).value))
    ensures |rows| > 0 && FirstShortRow(rows, 1).None? ==> r.Ok?
    ensures r.Ok? ==>
              var (data, labels) := r.value;
              |rows| > 0 && DataRowsComplete(rows)
              && |data| == |labels| == |rows| - 1
              && (forall i :: 0 <= i < |labels| ==> labels[i] == rows[i + 1][0])
              && (forall i :: 0 <= i < |data| ==> data[i] == Point(Midpoint(rows[i + 1], parse), ticker))
  {
    if |rows| == 0 {
      return Err(NoHeaderRow);
    }
    var data: seq<LineData> := [];
    var labels: seq<string> := [];
    for k := 1 to |rows|
      invariant |data| == |labels| == k - 1
      invariant forall j :: 1 <= j < k ==> |rows[j]| >= 4
      invariant forall i :: 0 <= i < k - 1 ==> labels[i] == rows[i + 1][0]
      invariant forall i :: 0 <= i < k - 1 ==> data[i] == Point(Midpoint(rows[i + 1], parse), ticker)
    {
      var row := rows[k];
      if |row| < 1 {
        return Err(ShortRow(k));
      }
      labels := labels + [row[0]];
      if |row| < 4 {
        return Err(ShortRow(k));
      }
      var high := ParsedOrZero(parse, row[2]);
      var low := ParsedOrZero(parse, row[3]);
      data := data + [Point((high + low) / 2.0, ticker)];
    }
    return Ok((data, labels));
  }

  /** data[0:points]: Go bounds a slice by the capacity of its backing array,
      not by its length, so a window longer than the series but within the
      capacity reads the zero values past its end; beyond the capacity, or
      for a negative bound, the slice panics. */
  function SliceWindow(data: seq<LineData>, capacity: nat, points: int): (r: Option<seq<LineData>>)
    requires |data| <= capacity
    ensures r.Some? <==> 0 <= points <= capacity
    ensures r.Some? ==> |r.value| == points
                        && (forall i :: 0 <= i < points && i < |data| ==> r.value[i] == data[i])
                        && (forall i :: |data| <= i < points ==> r.value[i] == Blank)
  {
    if points < 0 || points > capacity then None
    else if points <= |data| then Some(data[..points])
    else Some(data + seq(points - |data|, _ => Blank))
  }

  /** ReadData. `decoded` is the outcome of decoding the csv download;
      `parse` stands for strconv.ParseFloat (None where it reports an error);
      `capacity` is the capacity the appends left the point slice with, which
      the run-time's growth policy decides and which is at least its length. */
  method ReadData(name: string, ticker: string, period: string, points: int,
                  decoded: Result<seq<seq<string>>, string>,
                  parse: string -> Option<real>, capacity: nat)
    returns (r: ReadOutcome)
    requires decoded.Ok? ==> capacity + 1 >= |decoded.value|
    ensures decoded.Err? ==> r == DecodeFailed(DecodeFailedPrefix + decoded.error)
    ensures decoded.Ok? && |decoded.value| == 0 ==> r == Panicked(NoHeaderRow)
    ensures r.Panicked? && r.cause.ShortRow? ==>
              decoded.Ok? && FirstShortRow(decoded.value, 1) == Some(r.cause.row)
    ensures decoded.Ok? && |decoded.value| > 0 && !DataRowsComplete(decoded.value) ==>
              r.Panicked? && r.cause.ShortRow?
    ensures r == Panicked(SliceOutOfRange) <==>
              decoded.Ok? && |decoded.value| > 0 && DataRowsComplete(decoded.value)
              && (points < 0 || points > capacity)
    ensures r.Read? <==>
              decoded.Ok? && |decoded.value| > 0 && DataRowsComplete(decoded.value) && 0 <= points <= capacity
    ensures r.Read? ==>
              var rows, t := decoded.value, r.t;
              t.name == name && t.ticker == ticker && t.period == period && t.points == points
              && |t.xAxisSeries| == |rows| - 1
              && (forall i :: 0 <= i < |rows| - 1 ==> t.xAxisSeries[i] == rows[i + 1][0])
              && |t.data| == points
              && (forall i :: 0 <= i < points && i < |rows| - 1 ==>
                    t.data[i] == Point(Midpoint(rows[i + 1], parse), ticker))
              && (forall i :: |rows| - 1 <= i < points ==> t.data[i] == Blank)
  {
    if decoded.Err? {
      SprintfWrapped(DecodeFailedPrefix, decoded.error);
      return DecodeFailed(Sprintf(DecodeFailedPrefix + "%w", [Str(decoded.error)]));
    }
    var collected := CollectRows(decoded.value, ticker, parse);
    if collected.Err? {
      return Panicked(collected.error);
    }
    var (data, labels) := collected.value;
    var window := SliceWindow(data, capacity, points);
    if window.None? {
      return Panicked(SliceOutOfRange);
    }
    return Read(TickerData(name, ticker, window.value, labels, period, points));
  }

  /** ReadData as evidently intended: the window must lie within the series,
      so every point plotted comes from a data row. */
  method ReadDataWithinSeries(name: string, ticker: string, period: string, points: int,
                              decoded: Result<seq<seq<string>>, string>,
                              parse: string -> Option<real>)
    returns (r: ReadOutcome)
    ensures decoded.Err? ==> r == DecodeFailed(DecodeFailedPrefix + decoded.error)
    ensures decoded.Ok? && |decoded.value| == 0 ==> r == Panicked(NoHeaderRow)
    ensures r.Panicked? && r.cause.ShortRow? ==>
              decoded.Ok? && FirstShortRow(decoded.value, 1) == Some(r.cause.row)
    ensures decoded.Ok? && |decoded.value| > 0 && !DataRowsComplete(decoded.value) ==>
              r.Panicked? && r.cause.ShortRow?
    ensures r == Panicked(SliceOutOfRange) <==>
              decoded.Ok? && |decoded.value| > 0 && DataRowsComplete(decoded.value)
              && (points < 0 || points > |decoded.value| - 1)
    ensures r.Read? <==>
              decoded.Ok? && |decoded.value| > 0 && DataRowsComplete(decoded.value)
              && 0 <= points <= |decoded.value| - 1
    ensures r.Read? ==>
              var rows, t := decoded.value, r.t;
              t.name == name && t.ticker == ticker && t.period == period && t.points == points
              && |t.xAxisSeries| == |rows| - 1
              && (forall i :: 0 <= i < |rows| - 1 ==> t.xAxisSeries[i] == rows[i + 1][0])
              && |t.data| == points
              && (forall i :: 0 <= i < points ==> t.data[i] == Point(Midpoint(rows[i + 1], parse), ticker))
  {
    if decoded.Err? {
      SprintfWrapped(DecodeFailedPrefix, decoded.error);
      return DecodeFailed(Sprintf(DecodeFailedPrefix + "%w", [Str(decoded.error)]));
    }
    var collected := CollectRows(decoded.value, ticker, parse);
    if collected.Err? {
      return Panicked(collected.error);
    }
    var (data, labels) := collected.value;
    var window := SliceWindow(data, |data|, points);
    if window.None? {
      return Panicked(SliceOutOfRange);
    }
    return Read(TickerData(name, ticker, window.value, labels, period, points));
  }

  /** Six rows (a header and five data rows) leave the appended point slice
      with a capacity of 8 under Go's doubling growth. Asking for 7 points
      then gives two zero points past the series instead of a panic. */
  method BlankPaddingExample(parse: string -> Option<real>) returns (r: ReadOutcome)
    ensures r.Read? && |r.t.data| == 7 && r.t.data[5] == Blank && r.t.data[6] == Blank
  {
    var row := ["2024-01-01", "1", "3", "2", "2", "10"];
    var rows := [["timestamp", "open", "high", "low", "close", "volume"], row, row, row, row, row];
    assert |rows| == 6 && DataRowsComplete(rows);
    r := ReadData("Acme", "ACME", "Daily", 7, Ok(rows), parse, 8);
  }

  /** The corrected reading rejects the same request. */
  method BlankPaddingRejected(parse: string -> Option<real>) returns (r: ReadOutcome)
    ensures r == Panicked(SliceOutOfRange)
  {
    var row := ["2024-01-01", "1", "3", "2", "2", "10"];
    var rows := [["timestamp", "open", "high", "low", "close", "volume"], row, row, row, row, row];
    assert |rows| == 6 && DataRowsComplete(rows);
    r := ReadDataWithinSeries("Acme", "ACME", "Daily", 7, Ok(rows), parse);
  }
}
