/**
 * The dashboard component's state and handlers (Dashboard.jsx): the stocks and
 * cryptos portfolios, the two ticker input fields, and the browser storage
 * they are written back to after every change.
 */
module DashboardState {
  import opened Wrappers
  import opened TickerText
  import opened Portfolio
  import PriceSeries

  /** Storage keys of the two portfolios. */
  const StocksKey := "stocks"
  const CryptosKey := "cryptos"

  /** The portfolios used when storage holds nothing usable. */
  const StockSeed: seq<Holding> := [Holding("NVDA", 0.0, 0.0)]
  const CryptoSeed: seq<Holding> := [Holding("BTC", 0.0, 0.0)]

  /** The chart is mounted with a symbol only, so its asset type is always undefined. */
  const ChartKind: Option<string> := None

  /**
   * The initial read of `useLocalStorage`: the stored portfolio under `key`, or
   * `seed`; a missing, empty or unparsable stored text is an absent key here.
   */
  function Load(saved: map<string, seq<Holding>>, key: string, seed: seq<Holding>): (p: seq<Holding>)
  {
    if key in saved then saved[key] else seed
  }

  /**
   * Writing a portfolio under a key and loading that key gives the portfolio
   * back. With JSON encoding abstracted away this is the store-then-select law
   * of the storage map and no more: it records the round trip the dashboard
   * relies on, not a fact about its code.
   */
  lemma ReloadAfterSave(saved: map<string, seq<Holding>>, key: string, seed: seq<Holding>, p: seq<Holding>)
    ensures Load(saved[key := p], key, seed) == p
    ensures forall k :: k in saved && k != key ==> Load(saved[key := p], k, seed) == saved[k]
  {
  }

  /** The dashboard's chart always asks for the daily stock series and reads its "4. close" field. */
  lemma DashboardChartIsStockSeries()
    ensures PriceSeries.EnvelopeKey(ChartKind) == "Time Series (Daily)"
    ensures PriceSeries.CloseField(ChartKind) == "4. close"
    ensures PriceSeries.QueryFunction(ChartKind) == "TIME_SERIES_DAILY"
  {
  }

  class Dashboard {
    var stocks: seq<Holding>
    var cryptos: seq<Holding>
    var newStockTicker: string
    var newCryptoTicker: string
    /** The browser's storage, with every stored text already decoded. */
    var storage: map<string, seq<Holding>>

    /** What is in storage is what is on screen. */
    ghost predicate Valid()
      reads this
    {
      && StocksKey in storage && storage[StocksKey] == stocks
      && CryptosKey in storage && storage[CryptosKey] == cryptos
    }

    /** Mounting: load both portfolios (or their seeds), then the persist effects write both back. */
    constructor (saved: map<string, seq<Holding>>)
      ensures Valid()
      ensures stocks == Load(saved, StocksKey, StockSeed)
      ensures cryptos == Load(saved, CryptosKey, CryptoSeed)
      ensures newStockTicker == "" && newCryptoTicker == ""
      ensures storage == saved[StocksKey := stocks][CryptosKey := cryptos]
    {
      var s, c := Load(saved, StocksKey, StockSeed), Load(saved, CryptosKey, CryptoSeed);
      stocks, cryptos := s, c;
      newStockTicker, newCryptoTicker := "", "";
      storage := saved[StocksKey := s][CryptosKey := c];
    }

    /** `dispatchStocks(action)` followed by the effect that writes the new stocks to storage. */
    method DispatchStocks(action: Action)
      requires Valid()
      modifies this
      ensures Valid()
      ensures stocks == Reduce(old(stocks), action)
      ensures cryptos == old(cryptos)
      ensures newStockTicker == old(newStockTicker) && newCryptoTicker == old(newCryptoTicker)
      ensures storage == old(storage)[StocksKey := stocks]
    {
      stocks := Reduce(stocks, action);
      storage := storage[StocksKey := stocks];
    }

    /** `dispatchCryptos(action)` followed by the effect that writes the new cryptos to storage. */
    method DispatchCryptos(action: Action)
      requires Valid()
      modifies this
      ensures Valid()
      ensures cryptos == Reduce(old(cryptos), action)
      ensures stocks == old(stocks)
      ensures newStockTicker == old(newStockTicker) && newCryptoTicker == old(newCryptoTicker)
      ensures storage == old(storage)[CryptosKey := cryptos]
    {
      cryptos := Reduce(cryptos, action);
      storage := storage[CryptosKey := cryptos];
    }

    /** The stock ticker field's change handler. */
    method SetNewStockTicker(text: string)
      modifies this
      ensures newStockTicker == text
      ensures stocks == old(stocks) && cryptos == old(cryptos)
      ensures newCryptoTicker == old(newCryptoTicker) && storage == old(storage)
    {
      newStockTicker := text;
    }

    /** The crypto ticker field's change handler. */
    method SetNewCryptoTicker(text: string)
      modifies this
      ensures newCryptoTicker == text
      ensures stocks == old(stocks) && cryptos == old(cryptos)
      ensures newStockTicker == old(newStockTicker) && storage == old(storage)
    {
      newCryptoTicker := text;
    }

    /** `handleStockChange(ticker, value)`, with `parseFloat(value)` given as `parsed` (None for NaN). */
    method HandleStockChange(ticker: string, parsed: Option<real>)
      requires Valid()
      modifies this
      ensures Valid()
      ensures stocks == ChangeAmount(old(stocks), ticker, parsed)
      ensures cryptos == old(cryptos)
      ensures newStockTicker == old(newStockTicker) && newCryptoTicker == old(newCryptoTicker)
      ensures storage == old(storage)[StocksKey := stocks]
    {
      DispatchStocks(UpdateAmount(ticker, CoerceAmount(parsed)));
    }

    /** `handleCryptoChange(ticker, value)`, with `parseFloat(value)` given as `parsed` (None for NaN). */
    method HandleCryptoChange(ticker: string, parsed: Option<real>)
      requires Valid()
      modifies this
      ensures Valid()
      ensures cryptos == ChangeAmount(old(cryptos), ticker, parsed)
      ensures stocks == old(stocks)
      ensures newStockTicker == old(newStockTicker) && newCryptoTicker == old(newCryptoTicker)
      ensures storage == old(storage)[CryptosKey := cryptos]
    {
      DispatchCryptos(UpdateAmount(ticker, CoerceAmount(parsed)));
    }

    /**
     * `addStock()`: adds the typed ticker, normalised, as a zero holding and
     * clears the field; a refused add leaves everything as it was, the typed text included.
     */
    method AddStock() returns (outcome: AddOutcome)
      requires Valid()
      modifies this
      ensures Valid()
      ensures (outcome, stocks) == AddTicker(old(stocks), old(newStockTicker))
      ensures newStockTicker == if outcome == Added then "" else old(newStockTicker)
      ensures outcome != Added ==> storage == old(storage)
      ensures storage == old(storage)[StocksKey := stocks]
      ensures cryptos == old(cryptos) && newCryptoTicker == old(newCryptoTicker)
      ensures UniqueTickers(old(stocks)) ==> UniqueTickers(stocks)
      ensures NormalTickers(old(stocks)) ==> NormalTickers(stocks)
    {
      var ticker := NormalizeTicker(newStockTicker);
      if ticker == [] {
        return EmptyTicker;
      }
      if FindByTicker(stocks, ticker).Some? {
        return DuplicateTicker;
      }
      ghost var before, typed := stocks, newStockTicker;
      DispatchStocks(Add(Holding(ticker, 0.0, 0.0)));
      newStockTicker := "";
      outcome := Added;
      if UniqueTickers(before) {
        AddKeepsUnique(before, typed);
      }
      if NormalTickers(before) {
        AddKeepsNormal(before, typed);
      }
    }

    /** `addCrypto()`: as `addStock`, on the cryptos portfolio and its field. */
    method AddCrypto() returns (outcome: AddOutcome)
      requires Valid()
      modifies this
      ensures Valid()
      ensures (outcome, cryptos) == AddTicker(old(cryptos), old(newCryptoTicker))
      ensures newCryptoTicker == if outcome == Added then "" else old(newCryptoTicker)
      ensures outcome != Added ==> storage == old(storage)
      ensures storage == old(storage)[CryptosKey := cryptos]
      ensures stocks == old(stocks) && newStockTicker == old(newStockTicker)
      ensures UniqueTickers(old(cryptos)) ==> UniqueTickers(cryptos)
      ensures NormalTickers(old(cryptos)) ==> NormalTickers(cryptos)
    {
      var ticker := NormalizeTicker(newCryptoTicker);
      if ticker == [] {
        return EmptyTicker;
      }
      if FindByTicker(cryptos, ticker).Some? {
        return DuplicateTicker;
      }
      ghost var before, typed := cryptos, newCryptoTicker;
      DispatchCryptos(Add(Holding(ticker, 0.0, 0.0)));
      newCryptoTicker := "";
      outcome := Added;
      if UniqueTickers(before) {
        AddKeepsUnique(before, typed);
      }
      if NormalTickers(before) {
        AddKeepsNormal(before, typed);
      }
    }

    /** `deleteItem(ticker, kind)`: DELETE on the portfolio `kind` names; any other kind does nothing. */
    method DeleteItem(ticker: string, kind: string)
      requires Valid()
      modifies this
      ensures Valid()
      ensures stocks == if kind == "stock" then Without(old(stocks), ticker) else old(stocks)
      ensures cryptos == if kind == "crypto" then Without(old(cryptos), ticker) else old(cryptos)
      ensures kind == "stock" ==> storage == old(storage)[StocksKey := stocks]
      ensures kind == "crypto" ==> storage == old(storage)[CryptosKey := cryptos]
      ensures kind != "stock" && kind != "crypto" ==> storage == old(storage)
      ensures newStockTicker == old(newStockTicker) && newCryptoTicker == old(newCryptoTicker)
      ensures UniqueTickers(old(stocks)) ==> UniqueTickers(stocks)
      ensures UniqueTickers(old(cryptos)) ==> UniqueTickers(cryptos)
    {
      if kind == "stock" {
        if UniqueTickers(stocks) {
          WithoutKeepsUnique(stocks, ticker);
        }
        DispatchStocks(Delete(ticker));
      } else if kind == "crypto" {
        if UniqueTickers(cryptos) {
          WithoutKeepsUnique(cryptos, ticker);
        }
        DispatchCryptos(Delete(ticker));
      }
    }

    /** "Total Stock Value": the left fold of `price * amount` over the stocks. */
    function TotalStockValue(): (r: real)
      reads this
    {
      TotalValue(stocks)
    }

    /** "Total Crypto Value": the left fold of `price * amount` over the cryptos. */
    function TotalCryptoValue(): (r: real)
      reads this
    {
      TotalValue(cryptos)
    }
  }
}
