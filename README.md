# Portfolio tracker core in Dafny

This project models the two pieces of sequential logic in a small browser portfolio tracker.

- **The dashboard's portfolio store** (`Dashboard.jsx`). The two portfolios, "stocks" and "cryptos", are ordered sequences of holdings `{ticker, amount, price}`. A pure reducer applies ADD, DELETE, UPDATE_AMOUNT and UPDATE_PRICE actions to them. The handlers around the reducer add the real rules:
  - the typed ticker is trimmed and upper-cased;
  - an empty or duplicate ticker is refused;
  - a typed amount is coerced with `parseFloat(value) || 0`.

  After every change the portfolio is written back to browser storage. The total value of a portfolio is a left fold of `price * amount`.
- **The price chart** (`StockChart.jsx`). The asset type picks the response member and the close field to read. The series is normalised: map each entry to a point, drop the NaN closes, reverse. A completed fetch is classified as one of four outcomes: a thrown error ("Fetch error: " plus its message), missing series, no valid price, or data. The view shows the last ten points, and loading takes precedence over an error, which takes precedence over an empty list.

Modules, one file each:

- `Wrappers` (`wrappers.dfy`): `Option`.
- `TickerText` (`ticker_text.dfy`): `trim` and `toUpperCase`.
- `Portfolio` (`portfolio.dfy`): the reducer, the add guard, the amount coercion and the totals, as functions and lemmas.
- `DashboardState` (`dashboard.dfy`): class `Dashboard`. It holds `stocks`, `cryptos`, the two ticker input fields and the storage. Each handler is a method.
- `PriceSeries` (`price_series.dfy`): selection, normalisation, classification, window and render, as functions and lemmas.
- `ChartState` (`stock_chart.dfy`): class `StockChart`. It holds the `loading`, `error` and `data` state cells, with one method per step of `fetchData`.

Behaviours encoded as the code has them:

- A response without the expected series member ends in an **error** state carrying the message "No time series data returned (maybe unsupported symbol)". It does not end in a plain "empty" state. The "No data available" view cannot be reached after any completed fetch (`ChartState.StockChart.Fetch`).
- Nothing keeps amounts non-negative. `parseFloat("-3") || 0` is `-3`, and `min="0"` is only an input hint. The code never creates a duplicate ticker: ADD is reached only through the add guard, and the updates keep tickers. So tickers stay unique if they were unique when loaded, and a delete can also remove a loaded duplicate, since it drops every holding with that ticker. The stored portfolio is not validated, so uniqueness is kept as an implication ("if it held before, it holds after") and is not part of the class invariant.
- The dashboard mounts the chart without a `type`, so every chart reads the daily stock series and its `"4. close"` field (`DashboardState.DashboardChartIsStockSeries`).
- No handler dispatches UPDATE_PRICE. The reducer case is modelled; nothing on the dashboard reaches it.
- The success branch of a fetch does not touch the error cell. It relies on the error having been cleared when the fetch started.
- There is no total-amount fold in the code, so none is modelled.

## Model

| member | source | states |
|---|---|---|
| `Portfolio.Reduce` | first_react/src/pages/Dashboard.jsx:25-46 | ADD appends the payload: length grows by one and every earlier holding is unchanged; DELETE never grows the portfolio or invents a holding; the two updates keep the ticker list; an unrecognised action returns the state unchanged |
| `Portfolio.Without` | first_react/src/pages/Dashboard.jsx:29-30 | DELETE keeps exactly the holdings whose ticker differs from the payload and never lengthens the portfolio |
| `Portfolio.WithoutAppend` | first_react/src/pages/Dashboard.jsx:30 | filtering distributes over concatenation, so the kept holdings stay in their original order |
| `Portfolio.WithoutAbsent` | first_react/src/pages/Dashboard.jsx:30 | deleting a ticker that is not held is a no-op |
| `Portfolio.WithoutUnique` | first_react/src/pages/Dashboard.jsx:29-30 | with unique tickers, deleting the ticker at position i removes exactly that one holding and keeps the rest in order |
| `Portfolio.WithoutKeepsUnique` | first_react/src/pages/Dashboard.jsx:29-30 | deleting keeps tickers unique |
| `Portfolio.WithAmount` | first_react/src/pages/Dashboard.jsx:31-36 | UPDATE_AMOUNT keeps length, every ticker and every price; the amount of each matching holding becomes the payload amount and every other amount stays |
| `Portfolio.WithPrice` | first_react/src/pages/Dashboard.jsx:37-42 | UPDATE_PRICE keeps length, every ticker and every amount; the price of each matching holding becomes the payload price and every other price stays |
| `Portfolio.ReduceKeepsUnique` | first_react/src/pages/Dashboard.jsx:25-46 | every action keeps tickers unique unless it ADDs a ticker already present |
| `Portfolio.FindByTicker` | first_react/src/pages/Dashboard.jsx:84 | `find` yields a holding exactly when the ticker is held, and what it yields is the first holding with that ticker |
| `Portfolio.AddTicker` | first_react/src/pages/Dashboard.jsx:80-90 | add is refused, leaving the portfolio unchanged, exactly when the normalised ticker is empty or already held; otherwise it appends `{ticker, 0, 0}` with the normalised ticker |
| `Portfolio.AddKeepsUnique` | first_react/src/pages/Dashboard.jsx:80-90 | add keeps tickers unique |
| `Portfolio.AddKeepsNormal` | first_react/src/pages/Dashboard.jsx:80-90 | add keeps every ticker non-empty, trimmed and upper-case |
| `Portfolio.CoerceAmount` | first_react/src/pages/Dashboard.jsx:71 | `parseFloat(value) \|\| 0` is 0 for unparsable input and the parsed number otherwise, negative numbers included |
| `Portfolio.ChangeAmount` | first_react/src/pages/Dashboard.jsx:70-73 | the amount handler keeps every ticker and price and sets each matching amount to the parsed number, or to 0 when it is NaN |
| `Portfolio.FoldValue` | first_react/src/pages/Dashboard.jsx:110 | the `reduce` callback folded left from a running total; when every holding's `price * amount` is non-negative the result never drops below the starting total |
| `Portfolio.TotalValue` | first_react/src/pages/Dashboard.jsx:109-116 | the fold started from 0; a portfolio whose holdings all have non-negative worth totals at least 0 |
| `Portfolio.FoldValueShift` | first_react/src/pages/Dashboard.jsx:109-112 | reducing from a running total `acc` gives `acc` plus the reduce from 0 |
| `Portfolio.TotalValueAppend` | first_react/src/pages/Dashboard.jsx:109-112 | the value fold of a concatenation is the sum of the two folds |
| `Portfolio.TotalValueSingle` | first_react/src/pages/Dashboard.jsx:109-112 | a one-holding portfolio is worth that holding's `price * amount` |
| `Portfolio.TotalValueSplit` | first_react/src/pages/Dashboard.jsx:109-112 | a holding between two runs of others adds its worth to their totals |
| `Portfolio.TotalValueRemoveAt` | first_react/src/pages/Dashboard.jsx:109-112 | dropping the holding at position i lowers the total by its worth |
| `Portfolio.TotalValueReplaceAt` | first_react/src/pages/Dashboard.jsx:109-112 | replacing the holding at position i swaps its worth for the new holding's in the total |
| `Portfolio.TotalValueExamples` | first_react/src/pages/Dashboard.jsx:109-116 | an empty portfolio totals 0, and `[{2 at 170}, {1 at 240}]` totals 580 |
| `Portfolio.TotalValueAfterAdd` | first_react/src/pages/Dashboard.jsx:88 | adding a ticker, whether it succeeds or not, leaves the total value unchanged |
| `Portfolio.TotalValueAfterDelete` | first_react/src/pages/Dashboard.jsx:109-112 | with unique tickers, deleting a held ticker lowers the total by exactly that holding's `price * amount` |
| `Portfolio.WithAmountUnique` | first_react/src/pages/Dashboard.jsx:31-36 | with unique tickers, UPDATE_AMOUNT of the ticker at position i rewrites the amount of that one holding and leaves every other holding in place |
| `Portfolio.TotalValueAfterUpdateAmount` | first_react/src/pages/Dashboard.jsx:109-112 | with unique tickers, changing one holding's amount swaps that holding's old worth for its new worth and changes nothing else in the total |
| `TickerText.UpperChar` | first_react/src/pages/Dashboard.jsx:81 | an upper-cased character is never a lower-case letter, is white space exactly when the original was, and equals the original when that was not a lower-case letter |
| `TickerText.LeadingSpace` | first_react/src/pages/Dashboard.jsx:81 | the white space `trim` drops at the front: every character before the count is white space and the one at the count, if any, is not |
| `TickerText.TrailingSpace` | first_react/src/pages/Dashboard.jsx:81 | the white space `trim` drops at the end: every character after the cut is white space and the one just before it, if any, is not |
| `TickerText.TrimIsSlice` | first_react/src/pages/Dashboard.jsx:81 | `trim` yields the contiguous slice that follows the leading white space, and everything after that slice is white space |
| `TickerText.TrimEmpty` | first_react/src/pages/Dashboard.jsx:81 | `trim` yields the empty string exactly when the input is all white space |
| `TickerText.TrimEnds` | first_react/src/pages/Dashboard.jsx:81 | a non-empty trimmed string starts and ends with a character that is not white space |
| `TickerText.Trim` | first_react/src/pages/Dashboard.jsx:81 | `trim` never lengthens its input; what it keeps is stated by TrimIsSlice, TrimEmpty and TrimEnds |
| `TickerText.ToUpper` | first_react/src/pages/Dashboard.jsx:81 | `toUpperCase` keeps the length and upper-cases each character in place |
| `TickerText.NormalizeTicker` | first_react/src/pages/Dashboard.jsx:81 | the normalised ticker is empty exactly when the typed text is all white space; otherwise it is non-empty, trimmed and has no lower-case letter |
| `TickerText.NormalTickerIsFixed` | first_react/src/pages/Dashboard.jsx:81 | normalising an already normal ticker returns it unchanged |
| `TickerText.NormalizeIdempotent` | first_react/src/pages/Dashboard.jsx:81 | normalising twice gives the same ticker as normalising once |
| `DashboardState.Load` | first_react/src/pages/Dashboard.jsx:7-14 | the initial read of `useLocalStorage`: the stored portfolio when the key holds one, the seed otherwise (computed; its round trip is ReloadAfterSave) |
| `DashboardState.ReloadAfterSave` | first_react/src/pages/Dashboard.jsx:6-22 | a portfolio written under a key loads back unchanged, and the other keys are unaffected |
| `DashboardState.DashboardChartIsStockSeries` | first_react/src/pages/Dashboard.jsx:222 | the chart the dashboard mounts has no type, so it queries `TIME_SERIES_DAILY`, reads "Time Series (Daily)" and its "4. close" field |
| `DashboardState.Dashboard.constructor` | first_react/src/pages/Dashboard.jsx:50-67 | each portfolio is loaded from its storage key or falls back to its seed (NVDA, BTC), both input fields start empty, and both portfolios are written back to storage |
| `DashboardState.Dashboard.DispatchStocks` | first_react/src/pages/Dashboard.jsx:57-66 | the stocks become the reducer's result and are persisted under "stocks"; cryptos and inputs stay |
| `DashboardState.Dashboard.DispatchCryptos` | first_react/src/pages/Dashboard.jsx:58-67 | the cryptos become the reducer's result and are persisted under "cryptos"; stocks and inputs stay |
| `DashboardState.Dashboard.SetNewStockTicker` | first_react/src/pages/Dashboard.jsx:141 | typing in the stock field sets only that field |
| `DashboardState.Dashboard.SetNewCryptoTicker` | first_react/src/pages/Dashboard.jsx:183 | typing in the crypto field sets only that field |
| `DashboardState.Dashboard.HandleStockChange` | first_react/src/pages/Dashboard.jsx:70-73 | the stocks get the coerced amount for the ticker and are persisted; nothing else changes |
| `DashboardState.Dashboard.HandleCryptoChange` | first_react/src/pages/Dashboard.jsx:75-78 | the cryptos get the coerced amount for the ticker and are persisted; nothing else changes |
| `DashboardState.Dashboard.AddStock` | first_react/src/pages/Dashboard.jsx:80-90 | the outcome and new stocks are the add guard's; the field is cleared only on success; a refused add writes nothing; uniqueness and normal tickers are kept |
| `DashboardState.Dashboard.AddCrypto` | first_react/src/pages/Dashboard.jsx:92-101 | as AddStock, on the cryptos and their field |
| `DashboardState.Dashboard.DeleteItem` | first_react/src/pages/Dashboard.jsx:103-106 | "stock" deletes from the stocks and rewrites only the "stocks" entry of storage, "crypto" does the same on the cryptos and "cryptos", any other kind changes nothing; uniqueness is kept |
| `DashboardState.Dashboard.TotalStockValue` | first_react/src/pages/Dashboard.jsx:109-112 | the dashboard's stock total is the value fold of the current stocks (computed; its properties are the `Portfolio.TotalValue…` lemmas) |
| `DashboardState.Dashboard.TotalCryptoValue` | first_react/src/pages/Dashboard.jsx:113-116 | the dashboard's crypto total is the value fold of the current cryptos (computed; its properties are the `Portfolio.TotalValue…` lemmas) |
| `PriceSeries.QueryFunction` | first_react/src/components/StockChart.jsx:19-23 | the API function of the request URL by asset type (computed; stated by SelectionByKind) |
| `PriceSeries.EnvelopeKey` | first_react/src/components/StockChart.jsx:32-34 | the response member holding the series by asset type (computed; stated by SelectionByKind) |
| `PriceSeries.CloseField` | first_react/src/components/StockChart.jsx:45-47 | the record field holding the close by asset type (computed; stated by SelectionByKind) |
| `PriceSeries.SelectionByKind` | first_react/src/components/StockChart.jsx:19-47 | type "crypto" selects `DIGITAL_CURRENCY_DAILY`, "Time Series (Digital Currency Daily)" and "4a. close (USD)"; any other or absent type selects `TIME_SERIES_DAILY`, "Time Series (Daily)" and "4. close" |
| `PriceSeries.CloseOf` | first_react/src/components/StockChart.jsx:45-47 | `parseFloat` of a record's close field, a missing field reading as NaN (computed; used by NormalizeMembers and NormalizeSingle) |
| `PriceSeries.Parsed` | first_react/src/components/StockChart.jsx:43-50 | the entries mapped to their date and parsed close, in response order (computed; its content is stated by NormalizeMembers and NormalizeAppend) |
| `PriceSeries.DropNaN` | first_react/src/components/StockChart.jsx:51 | the NaN filter never lengthens the list |
| `PriceSeries.DropNaNMembers` | first_react/src/components/StockChart.jsx:51 | the filter keeps a point (d, x) exactly when the mapped list has date d with a parsed close x |
| `PriceSeries.DropNaNAppend` | first_react/src/components/StockChart.jsx:51 | the filter distributes over concatenation, so it keeps the order of the points it keeps |
| `PriceSeries.Reverse` | first_react/src/components/StockChart.jsx:52 | `reverse` keeps the length and puts element i at position n-1-i |
| `PriceSeries.ReverseAppend` | first_react/src/components/StockChart.jsx:52 | reversing a concatenation puts the reversed later part first |
| `PriceSeries.Normalize` | first_react/src/components/StockChart.jsx:43-52 | the normalised series is never longer than the response's series |
| `PriceSeries.NormalizeMembers` | first_react/src/components/StockChart.jsx:43-52 | the normalised series contains (d, x) exactly when some entry dated d has a close parsing to x, and it is empty exactly when no close parses |
| `PriceSeries.NormalizeAppend` | first_react/src/components/StockChart.jsx:43-52 | the normalisation of a concatenation is the normalisation of the later part followed by that of the earlier part, so the output order is the input order reversed |
| `PriceSeries.NormalizeSingle` | first_react/src/components/StockChart.jsx:44-51 | one entry yields one point when its close field parses and none when it is missing or NaN |
| `PriceSeries.DropNaNKeepsDescending` | first_react/src/components/StockChart.jsx:51 | the filter keeps a newest-first list newest first |
| `PriceSeries.DescendingInputGivesAscending` | first_react/src/components/StockChart.jsx:43-52 | input listed newest date first comes out oldest date first |
| `PriceSeries.NormalizeExample` | first_react/src/components/StockChart.jsx:43-52 | closes 105, 102, 100 dated 2024-01-03, 02, 01 normalise to 100, 102, 105 in ascending date order |
| `PriceSeries.Complete` | first_react/src/components/StockChart.jsx:32-63 | a thrown error gives "Fetch error: " plus its message; a missing series gives the "No time series data returned" error; a series with no parsable close gives the "No valid price data found" error; data results exactly when the series is present and some close parses, and it is then the non-empty normalised series |
| `PriceSeries.Window` | first_react/src/components/StockChart.jsx:80 | `slice(-10)` is the last min(10, n) points, in order |
| `PriceSeries.Render` | first_react/src/components/StockChart.jsx:72-80 | loading shows, and only loading shows, the loading view; otherwise a non-empty error wins; the "no data" view shows exactly when there is neither an error nor data; the list holds the window of the data and is never empty |
| `ChartState.StockChart.constructor` | first_react/src/components/StockChart.jsx:4-6 | the chart starts loading, with no error and no data |
| `ChartState.StockChart.View` | first_react/src/components/StockChart.jsx:72-80 | what the component renders is Render of its three state cells (computed; the precedence is stated by PriceSeries.Render) |
| `ChartState.StockChart.StartFetch` | first_react/src/components/StockChart.jsx:14-15 | starting a fetch turns loading on and clears the error, leaving the data; the view is the loading view |
| `ChartState.StockChart.FinishFetch` | first_react/src/components/StockChart.jsx:32-66 | a failed fetch sets the error and clears the data; a successful one sets the data and leaves the error; loading is off afterwards either way |
| `ChartState.StockChart.Fetch` | first_react/src/components/StockChart.jsx:13-74 | after a whole fetch cycle loading is off; a failed fetch leaves exactly its message as the error and no data, a successful one no error and exactly the normalised series; the view is then the error message or the last ten points, and never the loading or "no data" view |

## Left out

- Browser storage and JSON. `window.localStorage` and `JSON.parse`/`JSON.stringify` are foreign calls. Storage is a `map` from key to an already decoded portfolio. A missing, empty or unparsable stored text is treated as an absent key. A stored value that parses to something other than a list of holdings is not modelled.
- The network. `fetch`, `res.json()`, the request URLs and the embedded API key are I/O. The response is given to the model as a value: either the message of a thrown error, or the decoded object limited to its time-series members. Response members of other shapes are not modelled, such as a string at the series key or a record that is not an object.
- `console.log` and `console.error` are I/O.
- The stale-response race. Nothing cancels an in-flight fetch when the symbol changes. The model lets `StartFetch` and `FinishFetch` happen in any order, but no property covers an old response that overwrites a newer one.
- Float parsing and formatting. `parseFloat` and `isNaN` are abstracted as an `Option<real>` that is `None` for NaN, so infinities cannot be represented. `toFixed(2)` and `toFixed(6)` are not modelled. Amounts, prices and totals are exact reals, so IEEE rounding in the fold is not modelled.
- Case mapping. `toUpperCase` is modelled for ASCII letters only. Unicode mappings, including those that change the length, are not. `trim` uses the full ECMAScript set of white-space and line-terminator characters.
- The duplicate-ticker `alert`. It appears as the `DuplicateTicker` outcome and is not shown.
- The selected-ticker view state and its click handler.
- The symbol shown in the loading message and in the list heading, and all styling.
- `LandingPage.jsx`, `Navbar.jsx` and `App.jsx`: static markup and routing.
