/**
 * The chart component's state cells (StockChart.jsx): `loading`, `error` and
 * `data`, stepped by `fetchData` through set-loading, then set-error or
 * set-data, then clear-loading.
 */
module ChartState {
  import opened Wrappers
  import opened PriceSeries

  /** The view once a fetch that started from a clean error has completed with `c`. */
  function CompletedView(c: Completion): (v: View)
  {
    match c
    case Failed(m) => ErrorView(m)
    case Loaded(points) => ListView(Window(points))
  }

  class StockChart {
    /** The asset type prop; absent when the dashboard mounts the chart. */
    const kind: Option<string>
    var data: seq<PricePoint>
    var loading: bool
    var error: Option<string>

    constructor (kind: Option<string>)
      ensures this.kind == kind
      ensures data == [] && loading && error == None
    {
      this.kind := kind;
      data, loading, error := [], true, None;
    }

    /** What the component renders in its current state. */
    function View(): (v: View)
      reads this
    {
      Render(loading, error, data)
    }

    /** The start of `fetchData`: loading on, error cleared, data left as it was. */
    method StartFetch()
      modifies this
      ensures loading && error == None && data == old(data)
      ensures View() == LoadingView
    {
      loading := true;
      error := None;
    }

    /**
     * The end of `fetchData` once the response is in: an error clears the data,
     * a success sets it and leaves the error cell alone; loading ends either way.
     */
    method FinishFetch(response: Response)
      modifies this
      ensures !loading
      ensures match Complete(response, kind)
              case Failed(m) => error == Some(m) && data == []
              case Loaded(points) => data == points && error == old(error)
      ensures old(error) == None ==> View() == CompletedView(Complete(response, kind))
    {
      match response {
        case Thrown(m) =>
          error := Some(FetchErrorPrefix + m);
          data := [];
        case Decoded(envelope) =>
          var key := EnvelopeKey(kind);
          if key !in envelope {
            error := Some(NoSeriesMessage);
            data := [];
            loading := false;
            return;
          }
          var chart := Normalize(envelope[key], CloseField(kind));
          if |chart| == 0 {
            error := Some(NoPricesMessage);
            data := [];
          } else {
            data := chart;
          }
      }
      loading := false;
    }

    /** One whole fetch cycle: the view is then the error message or the last ten points, never "no data". */
    method Fetch(response: Response)
      modifies this
      ensures !loading
      ensures match Complete(response, kind)
              case Failed(m) => error == Some(m) && data == []
              case Loaded(points) => error == None && data == points
      ensures View() == CompletedView(Complete(response, kind))
      ensures View() != NoDataView && View() != LoadingView
    {
      StartFetch();
      FinishFetch(response);
    }
  }
}
