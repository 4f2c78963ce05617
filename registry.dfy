/** The stock registry: a dictionary from symbol to price (in cents), and the
    default stocks every fresh or reset market starts from. */
module Registry {

  /** A stock as the registry hands it out: its symbol and its price in cents. */
  datatype Stock = Stock(symbol: string, price: int)

  /** The stocks `LoadDefaultStocks` adds, in the order it adds them:
      MSFT at 75.12, AAPL at 158.44 and GOOG at 924.54. */
  const DefaultStocks: seq<Stock> :=
    [Stock("MSFT", 7512), Stock("AAPL", 15844), Stock("GOOG", 92454)]

  /** The registry as it stands after the defaults are loaded. */
  const DefaultRegistry: map<string, int> :=
    map["MSFT" := 7512, "AAPL" := 15844, "GOOG" := 92454]

  /** Every price in the registry is above zero. */
  ghost predicate AllPositive(prices: map<string, int>)
  {
    forall s :: s in prices ==> prices[s] > 0
  }

  /** The symbols of a list of stocks. */
  function Symbols(stocks: seq<Stock>): set<string>
  {
    set st | st in stocks :: st.symbol
  }

  /** `ConcurrentDictionary.TryAdd`: adds the entry when the key is new and
      leaves the dictionary as it was when the key is already present. */
  function TryAdd(prices: map<string, int>, symbol: string, price: int): (r: map<string, int>)
    ensures r.Keys == prices.Keys + {symbol}
    ensures symbol in prices ==> r == prices
    ensures symbol !in prices ==> r[symbol] == price
    ensures forall s :: s in prices ==> r[s] == prices[s]
  {
    if symbol in prices then prices else prices[symbol := price]
  }

  /** An empty registry after `TryAdd` of each stock in turn. Since `TryAdd`
      never overwrites, each symbol carries the price of its first occurrence. */
  function AddAll(stocks: seq<Stock>): (r: map<string, int>)
    ensures r.Keys == Symbols(stocks)
    ensures forall i :: 0 <= i < |stocks| && FirstOccurrence(stocks, i) ==> r[stocks[i].symbol] == stocks[i].price
  {
    if stocks == [] then map[]
    else
      var init := stocks[..|stocks| - 1];
      var last := stocks[|stocks| - 1];
      assert stocks == init + [last];
      SymbolsOfSnoc(init, last);
      var r := TryAdd(AddAll(init), last.symbol, last.price);
      assert forall i :: 0 <= i < |stocks| && FirstOccurrence(stocks, i) ==> r[stocks[i].symbol] == stocks[i].price by {
        forall i | 0 <= i < |stocks| && FirstOccurrence(stocks, i)
          ensures r[stocks[i].symbol] == stocks[i].price
        {
          if i < |init| {
            assert stocks[i] == init[i];
            assert FirstOccurrence(init, i);
          } else {
            assert forall j :: 0 <= j < |init| ==> init[j] == stocks[j];
          }
        }
      }
      r
  }

  /** No stock before index `i` has the symbol of the stock at `i`. */
  ghost predicate FirstOccurrence(stocks: seq<Stock>, i: int)
    requires 0 <= i < |stocks|
  {
    forall j :: 0 <= j < i ==> stocks[j].symbol != stocks[i].symbol
  }

  lemma SymbolsOfSnoc(init: seq<Stock>, last: Stock)
    ensures Symbols(init + [last]) == Symbols(init) + {last.symbol}
    ensures last.symbol !in Symbols(init) <==> forall j :: 0 <= j < |init| ==> init[j].symbol != last.symbol
  {
  }

  /** Loading the defaults yields exactly MSFT 75.12, AAPL 158.44 and
      GOOG 924.54, whatever the registry held before it was cleared. */
  lemma LoadingDefaultsGivesDefaultRegistry()
    ensures AddAll(DefaultStocks) == DefaultRegistry
    ensures AllPositive(DefaultRegistry)
  {
  }
}
