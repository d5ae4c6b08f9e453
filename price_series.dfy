/**
 * The pure part of the price chart (StockChart.jsx): which series and which
 * close field to read, the normalisation of the series into price points,
 * the classification of a response, the ten-point display window and the
 * order in which the view's states take precedence.
 */
module PriceSeries {
  import opened Wrappers

  /** One day's record: field name to the parsed number in it (None where parsing gives NaN). */
  type Entry = map<string, Option<real>>

  /** A time-series object as `Object.entries` lists it: (date, record) pairs in response order. */
  type TimeSeries = seq<(string, Entry)>

  /** The decoded response object, restricted to its members that hold a time series. */
  type Envelope = map<string, TimeSeries>

  /** The outcome of `fetch` and `res.json()`: either one of them threw, or a decoded object. */
  datatype Response = Thrown(message: string) | Decoded(envelope: Envelope)

  datatype PricePoint = PricePoint(date: string, price: real)

  // ---------------------------------------------------------------------------
  // Endpoint and field selection by asset type
  // ---------------------------------------------------------------------------

  /** `type === "crypto"`; the `type` prop may be absent. */
  predicate IsCrypto(kind: Option<string>)
  {
    kind == Some("crypto")
  }

  /** The API function named in the request. */
  function QueryFunction(kind: Option<string>): (f: string)
  {
    if IsCrypto(kind) then "DIGITAL_CURRENCY_DAILY" else "TIME_SERIES_DAILY"
  }

  /** The response member that holds the series. */
  function EnvelopeKey(kind: Option<string>): (key: string)
  {
    if IsCrypto(kind) then "Time Series (Digital Currency Daily)" else "Time Series (Daily)"
  }

  /** The record field that holds the day's close. */
  function CloseField(kind: Option<string>): (field: string)
  {
    if IsCrypto(kind) then "4a. close (USD)" else "4. close"
  }

  /** Crypto selects the digital-currency series; every other type, absent included, the daily stock series. */
  lemma SelectionByKind(kind: Option<string>)
    ensures kind == Some("crypto") ==>
              && QueryFunction(kind) == "DIGITAL_CURRENCY_DAILY"
              && EnvelopeKey(kind) == "Time Series (Digital Currency Daily)"
              && CloseField(kind) == "4a. close (USD)"
    ensures kind != Some("crypto") ==>
              && QueryFunction(kind) == "TIME_SERIES_DAILY"
              && EnvelopeKey(kind) == "Time Series (Daily)"
              && CloseField(kind) == "4. close"
  {
  }

  // ---------------------------------------------------------------------------
  // Normalisation: entries -> map -> filter(!isNaN) -> reverse
  // ---------------------------------------------------------------------------

  /** `parseFloat(info[field])`: a missing field reads as undefined, which parses to NaN. */
  function CloseOf(e: Entry, field: string): (x: Option<real>)
  {
    if field in e then e[field] else None
  }

  /** The `map` step: each entry becomes its date and its parsed close. */
  function Parsed(series: TimeSeries, field: string): (ps: seq<(string, Option<real>)>)
  {
    seq(|series|, i requires 0 <= i < |series| => (series[i].0, CloseOf(series[i].1, field)))
  }

  /** The `filter(d => !isNaN(d.price))` step: keeps exactly the parsed points, as price points. */
  function DropNaN(ps: seq<(string, Option<real>)>): (r: seq<PricePoint>)
    ensures |r| <= |ps|
  {
    if ps == [] then []
    else
      (match ps[0].1 case Some(x) => [PricePoint(ps[0].0, x)] case None => [])
      + DropNaN(ps[1..])
  }

  /** The filter keeps a point exactly when its pair carries a number. */
  lemma {:induction false} DropNaNMembers(ps: seq<(string, Option<real>)>)
    ensures forall d, x :: PricePoint(d, x) in DropNaN(ps) <==> (d, Some(x)) in ps
  {
    if ps != [] {
      DropNaNMembers(ps[1..]);
      assert ps == [ps[0]] + ps[1..];
    }
  }

  /** The `reverse` step. */
  function Reverse<T>(s: seq<T>): (r: seq<T>)
    ensures |r| == |s|
    ensures forall i :: 0 <= i < |s| ==> r[i] == s[|s| - 1 - i]
  {
    if s == [] then [] else Reverse(s[1..]) + [s[0]]
  }

  /** Reversing keeps exactly the same members. */
  lemma ReverseMembers<T>(s: seq<T>)
    ensures forall p :: p in Reverse(s) <==> p in s
  {
    var r := Reverse(s);
    forall p ensures p in r <==> p in s {
      if p in r {
        var i :| 0 <= i < |r| && r[i] == p;
        assert s[|s| - 1 - i] == p;
      }
      if p in s {
        var i :| 0 <= i < |s| && s[i] == p;
        assert r[|s| - 1 - i] == p;
      }
    }
  }

  /** The parsed pairs with a number are exactly the entries whose close parses. */
  lemma ParsedMembers(series: TimeSeries, field: string)
    ensures forall d, x :: (d, Some(x)) in Parsed(series, field) <==>
              exists i :: 0 <= i < |series| && series[i].0 == d && CloseOf(series[i].1, field) == Some(x)
  {
    var ps := Parsed(series, field);
    forall d, x ensures (d, Some(x)) in ps <==>
              exists i :: 0 <= i < |series| && series[i].0 == d && CloseOf(series[i].1, field) == Some(x) {
      if (d, Some(x)) in ps {
        var i :| 0 <= i < |ps| && ps[i] == (d, Some(x));
        assert series[i].0 == d;
      }
      if i :| 0 <= i < |series| && series[i].0 == d && CloseOf(series[i].1, field) == Some(x) {
        assert ps[i] == (d, Some(x));
      }
    }
  }

  /** The filtered points are empty exactly when no entry has a parsable close. */
  lemma DropNaNEmpty(series: TimeSeries, field: string)
    ensures DropNaN(Parsed(series, field)) == [] <==> forall i :: 0 <= i < |series| ==> CloseOf(series[i].1, field).None?
  {
    var kept := DropNaN(Parsed(series, field));
    var ps := Parsed(series, field);
    DropNaNMembers(ps);
    if kept != [] {
      assert kept[0] in kept;
      assert (kept[0].date, Some(kept[0].price)) in ps;
      var i :| 0 <= i < |ps| && ps[i] == (kept[0].date, Some(kept[0].price));
      assert CloseOf(series[i].1, field).Some?;
    }
    if i :| 0 <= i < |series| && CloseOf(series[i].1, field).Some? {
      var x := CloseOf(series[i].1, field).value;
      assert ps[i] == (series[i].0, Some(x));
      assert PricePoint(series[i].0, x) in kept;
    }
  }

  /** The normalised series: `Object.entries`, the `map` to parsed points, the NaN filter and the reverse. */
  function Normalize(series: TimeSeries, field: string): (r: seq<PricePoint>)
    ensures |r| <= |series|
  {
    Reverse(DropNaN(Parsed(series, field)))
  }

  /**
   * The normalised series has a point (d, x) exactly when some entry dated d has
   * a close that parses to x, and it is empty exactly when no entry has a
   * parsable close.
   */
  lemma NormalizeMembers(series: TimeSeries, field: string)
    ensures forall d, x :: PricePoint(d, x) in Normalize(series, field) <==>
              exists i :: 0 <= i < |series| && series[i].0 == d && CloseOf(series[i].1, field) == Some(x)
    ensures Normalize(series, field) == [] <==> forall i :: 0 <= i < |series| ==> CloseOf(series[i].1, field).None?
  {
    var ps := Parsed(series, field);
    var kept := DropNaN(ps);
    DropNaNMembers(ps);
    ReverseMembers(kept);
    ParsedMembers(series, field);
    DropNaNEmpty(series, field);
  }

  lemma {:induction false} DropNaNAppend(a: seq<(string, Option<real>)>, b: seq<(string, Option<real>)>)
    ensures DropNaN(a + b) == DropNaN(a) + DropNaN(b)
  {
    if a == [] {
      assert a + b == b;
    } else {
      assert (a + b)[1..] == a[1..] + b;
      DropNaNAppend(a[1..], b);
    }
  }

  lemma {:induction false} ReverseAppend<T>(a: seq<T>, b: seq<T>)
    ensures Reverse(a + b) == Reverse(b) + Reverse(a)
  {
    if a == [] {
      assert a + b == b;
    } else {
      assert (a + b)[1..] == a[1..] + b;
      ReverseAppend(a[1..], b);
    }
  }

  /**
   * The later part of a response comes first in the normalised series: together
   * with the one-entry case this fixes the whole output order.
   */
  lemma NormalizeAppend(a: TimeSeries, b: TimeSeries, field: string)
    ensures Normalize(a + b, field) == Normalize(b, field) + Normalize(a, field)
  {
    assert Parsed(a + b, field) == Parsed(a, field) + Parsed(b, field);
    DropNaNAppend(Parsed(a, field), Parsed(b, field));
    ReverseAppend(DropNaN(Parsed(a, field)), DropNaN(Parsed(b, field)));
  }

  /** One entry becomes one point when its close parses, and nothing otherwise. */
  lemma NormalizeSingle(date: string, e: Entry, field: string)
    ensures Normalize([(date, e)], field) ==
              match CloseOf(e, field) case Some(x) => [PricePoint(date, x)] case None => []
  {
    var ps := Parsed([(date, e)], field);
    assert ps == [(date, CloseOf(e, field))];
    assert ps[1..] == [];
  }

  // ---------------------------------------------------------------------------
  // Date order
  // ---------------------------------------------------------------------------

  /** Lexicographic order on strings, which is chronological order on ISO-8601 dates. */
  predicate DateBefore(a: string, b: string)
  {
    if a == [] then b != []
    else b != [] && (a[0] < b[0] || (a[0] == b[0] && DateBefore(a[1..], b[1..])))
  }

  ghost predicate Descending(series: TimeSeries)
  {
    forall i, j :: 0 <= i < j < |series| ==> DateBefore(series[j].0, series[i].0)
  }

  ghost predicate Ascending(points: seq<PricePoint>)
  {
    forall i, j :: 0 <= i < j < |points| ==> DateBefore(points[i].date, points[j].date)
  }

  ghost predicate DescendingParsed(ps: seq<(string, Option<real>)>)
  {
    forall i, j :: 0 <= i < j < |ps| ==> DateBefore(ps[j].0, ps[i].0)
  }

  ghost predicate DescendingPoints(points: seq<PricePoint>)
  {
    forall i, j :: 0 <= i < j < |points| ==> DateBefore(points[j].date, points[i].date)
  }

  lemma {:induction false} DropNaNKeepsDescending(ps: seq<(string, Option<real>)>)
    requires DescendingParsed(ps)
    ensures DescendingPoints(DropNaN(ps))
  {
    if ps != [] {
      var rest := DropNaN(ps[1..]);
      DropNaNKeepsDescending(ps[1..]);
      DropNaNMembers(ps[1..]);
      if ps[0].1.Some? {
        forall j | 0 <= j < |rest| ensures DateBefore(rest[j].date, ps[0].0) {
          assert PricePoint(rest[j].date, rest[j].price) in rest;
          var k :| 0 <= k < |ps[1..]| && ps[1..][k] == (rest[j].date, Some(rest[j].price));
          assert ps[k + 1].0 == rest[j].date;
        }
        var r := [PricePoint(ps[0].0, ps[0].1.value)] + rest;
        forall i, j | 0 <= i < j < |r| ensures DateBefore(r[j].date, r[i].date) {
          if i > 0 { assert r[i] == rest[i - 1] && r[j] == rest[j - 1]; }
          else { assert r[j] == rest[j - 1]; }
        }
      }
    }
  }

  /** A response listed newest first, as the API sends it, normalises to a series oldest first. */
  lemma DescendingInputGivesAscending(series: TimeSeries, field: string)
    requires Descending(series)
    ensures Ascending(Normalize(series, field))
  {
    var ps := Parsed(series, field);
    assert DescendingParsed(ps);
    DropNaNKeepsDescending(ps);
  }

  /** Three closes listed newest first come out oldest first. */
  lemma NormalizeExample()
    ensures Normalize([("2024-01-03", map["4. close" := Some(105.0)]),
                       ("2024-01-02", map["4. close" := Some(102.0)]),
                       ("2024-01-01", map["4. close" := Some(100.0)])], "4. close")
            == [PricePoint("2024-01-01", 100.0), PricePoint("2024-01-02", 102.0), PricePoint("2024-01-03", 105.0)]
  {
    var a: TimeSeries := [("2024-01-03", map["4. close" := Some(105.0)])];
    var b: TimeSeries := [("2024-01-02", map["4. close" := Some(102.0)])];
    var c: TimeSeries := [("2024-01-01", map["4. close" := Some(100.0)])];
    NormalizeSingle("2024-01-03", map["4. close" := Some(105.0)], "4. close");
    NormalizeSingle("2024-01-02", map["4. close" := Some(102.0)], "4. close");
    NormalizeSingle("2024-01-01", map["4. close" := Some(100.0)], "4. close");
    NormalizeAppend(b, c, "4. close");
    NormalizeAppend(a, b + c, "4. close");
    assert a + (b + c) == [a[0], b[0], c[0]];
  }

  // ---------------------------------------------------------------------------
  // Classifying a completed fetch
  // ---------------------------------------------------------------------------

  const NoSeriesMessage := "No time series data returned (maybe unsupported symbol)"
  const NoPricesMessage := "No valid price data found for this symbol"
  const FetchErrorPrefix := "Fetch error: "

  /** How a fetch ends: an error message (with the data cleared) or the normalised series. */
  datatype Completion = Failed(message: string) | Loaded(points: seq<PricePoint>)

  /** Whether some entry of the series has a close that parses. */
  ghost predicate HasParsableClose(series: TimeSeries, field: string)
  {
    exists i :: 0 <= i < |series| && CloseOf(series[i].1, field).Some?
  }

  /**
   * The outcome of `fetchData` for a given response: a thrown error, then a
   * missing series, then a series with no parsable close are errors; otherwise
   * the data is exactly the normalised series, which is then never empty.
   */
  function Complete(response: Response, kind: Option<string>): (c: Completion)
    ensures response.Thrown? ==> c == Failed(FetchErrorPrefix + response.message)
    ensures response.Decoded? && EnvelopeKey(kind) !in response.envelope ==> c == Failed(NoSeriesMessage)
    ensures c.Loaded? <==>
              response.Decoded? && EnvelopeKey(kind) in response.envelope
              && HasParsableClose(response.envelope[EnvelopeKey(kind)], CloseField(kind))
    ensures c.Loaded? ==>
              c.points != [] && c.points == Normalize(response.envelope[EnvelopeKey(kind)], CloseField(kind))
    ensures c.Failed? ==> c.message != []
    ensures c.Failed? && response.Decoded? && EnvelopeKey(kind) in response.envelope ==> c == Failed(NoPricesMessage)
  {
    match response
    case Thrown(m) => Failed(FetchErrorPrefix + m)
    case Decoded(envelope) =>
      var key := EnvelopeKey(kind);
      if key !in envelope then Failed(NoSeriesMessage)
      else
        var chart := Normalize(envelope[key], CloseField(kind));
        NormalizeMembers(envelope[key], CloseField(kind));
        if |chart| == 0 then Failed(NoPricesMessage) else Loaded(chart)
  }

  // ---------------------------------------------------------------------------
  // Display
  // ---------------------------------------------------------------------------

  /** `data.slice(-10)`: the last ten points, or all of them when there are fewer, in the same order. */
  function Window(data: seq<PricePoint>): (w: seq<PricePoint>)
    ensures |w| == if |data| < 10 then |data| else 10
    ensures w == data[|data| - |w|..]
  {
    var start := |data| - 10;
    if start < 0 then data[0..] else data[start..]
  }

  /** What the chart shows. */
  datatype View = LoadingView | ErrorView(message: string) | NoDataView | ListView(points: seq<PricePoint>)

  /**
   * The render: loading wins over an error, an error (a non-empty message) wins
   * over an empty list, and the list is shown only when there is data.
   */
  function Render(loading: bool, error: Option<string>, data: seq<PricePoint>): (v: View)
    ensures v.LoadingView? <==> loading
    ensures v.ErrorView? <==> !loading && error.Some? && error.value != []
    ensures v.ErrorView? ==> v.message == error.value
    ensures v.NoDataView? <==> !loading && (error.None? || error.value == []) && data == []
    ensures v.ListView? ==> v.points == Window(data) && v.points != []
  {
    if loading then LoadingView
    else if error.Some? && error.value != [] then ErrorView(error.value)
    else if data == [] then NoDataView
    else ListView(Window(data))
  }
}
