/** The market engine: lifecycle state, the update timer, the stock registry
    and the guard that keeps price batches from overlapping.

    Every operation is one atomic step; the locks that serialise the real
    operations are not modelled. The hub broadcasts are appended to a ghost log,
    and the timer is reduced to its lifecycle (never created, running, disposed). */
module Ticker {
  import opened Pricing
  import opened Registry

  datatype MarketState = Closed | Open

  /** The `_timer` field: null until the first open, then the timer created by
      the latest open, which a close disposes without clearing the field. */
  datatype TimerState = NoTimer | Running | Disposed

  /** The messages the engine sends to every hub client, under the client
      method names "marketOpened", "marketClosed" and "marketReset". */
  datatype Broadcast = MarketOpened | MarketClosed | MarketReset

  datatype Option<T> = None | Some(value: T)

  /** What `Reset` ends with: success, or the `InvalidOperationException` it
      throws when the market is not closed. */
  datatype ResetOutcome = ResetDone | InvalidOperation(message: string)

  const ResetRefusal: string := "Market must be closed before it can be reset."

  /** How many times `b` occurs in `log`. */
  function Occurrences(log: seq<Broadcast>, b: Broadcast): nat
  {
    if log == [] then 0
    else (if log[0] == b then 1 else 0) + Occurrences(log[1..], b)
  }

  /** Appending one message adds one to its own count and nothing to the
      others'. */
  lemma {:induction false} OccurrencesOfAppend(log: seq<Broadcast>, e: Broadcast, b: Broadcast)
    ensures Occurrences(log + [e], b) == Occurrences(log, b) + (if e == b then 1 else 0)
  {
    if log == [] {
      assert [e][1..] == [];
    } else {
      assert (log + [e])[1..] == log[1..] + [e];
      OccurrencesOfAppend(log[1..], e, b);
    }
  }

  class StockTicker {
    var marketState: MarketState
    var timer: TimerState
    var stocks: map<string, int>
    var updatingStockPrices: bool
    /** Every broadcast sent so far, oldest first. */
    ghost var broadcasts: seq<Broadcast>
    /** How many update timers have been created so far. */
    ghost var timersStarted: nat

    /** The engine's invariant: a running timer exists exactly while the
        market is open; the field stays null until the first open; every
        timer created is announced by one "marketOpened"; there is one more
        "marketOpened" than "marketClosed" while the market is open and as
        many of each while it is closed; and every price is above zero. */
    ghost predicate Valid()
      reads this
    {
      (timer == Running <==> marketState == Open) &&
      (timer == NoTimer <==> timersStarted == 0) &&
      timersStarted == Occurrences(broadcasts, MarketOpened) &&
      Occurrences(broadcasts, MarketOpened) ==
        Occurrences(broadcasts, MarketClosed) + (if marketState == Open then 1 else 0) &&
      AllPositive(stocks)
    }

    /** A new engine: closed, with no timer, and holding the default stocks. */
    constructor ()
      ensures Valid()
      ensures marketState == Closed && timer == NoTimer && !updatingStockPrices
      ensures stocks == DefaultRegistry
      ensures broadcasts == [] && timersStarted == 0
    {
      marketState := Closed;
      timer := NoTimer;
      stocks := map[];
      updatingStockPrices := false;
      broadcasts := [];
      timersStarted := 0;
      new;
      LoadDefaultStocks();
    }

    /** The stocks currently in the registry, one per symbol. */
    function GetAllStocks(): (all: set<Stock>)
      reads this
      ensures forall st :: st in all <==> st.symbol in stocks && stocks[st.symbol] == st.price
    {
      set s | s in stocks :: Stock(s, stocks[s])
    }

    /** One check of the snapshot stream's loop: while the market is open it
        yields the current stocks; once it finds the market closed the stream
        ends. */
    function NextSnapshot(): (next: Option<set<Stock>>)
      reads this
      ensures next.Some? <==> marketState == Open
      ensures next.Some? ==> forall st :: st in next.value <==> st.symbol in stocks && stocks[st.symbol] == st.price
    {
      if marketState == Open then Some(GetAllStocks()) else None
    }

    /** Starts the update timer and announces the open, unless the market is
        already open, in which case nothing happens. */
    method OpenMarket()
      requires Valid()
      modifies this
      ensures Valid()
      ensures marketState == Open && timer == Running
      ensures old(marketState) != Open ==>
        timersStarted == old(timersStarted) + 1 && broadcasts == old(broadcasts) + [MarketOpened]
      ensures old(marketState) == Open ==>
        timersStarted == old(timersStarted) && broadcasts == old(broadcasts)
      ensures stocks == old(stocks) && updatingStockPrices == old(updatingStockPrices)
    {
      if marketState != Open {
        timer := Running;
        timersStarted := timersStarted + 1;
        marketState := Open;
        OccurrencesOfAppend(broadcasts, MarketOpened, MarketOpened);
        OccurrencesOfAppend(broadcasts, MarketOpened, MarketClosed);
        broadcasts := broadcasts + [MarketOpened];
      }
    }

    /** Disposes the update timer and announces the close, unless the market
        is already closed, in which case nothing happens. */
    method CloseMarket()
      requires Valid()
      modifies this
      ensures Valid()
      ensures marketState == Closed && timer != Running
      ensures old(marketState) == Open ==>
        timer == Disposed && broadcasts == old(broadcasts) + [MarketClosed]
      ensures old(marketState) != Open ==>
        timer == old(timer) && broadcasts == old(broadcasts)
      ensures timersStarted == old(timersStarted)
      ensures stocks == old(stocks) && updatingStockPrices == old(updatingStockPrices)
    {
      if marketState == Open {
        if timer != NoTimer {
          timer := Disposed;
        }
        marketState := Closed;
        OccurrencesOfAppend(broadcasts, MarketClosed, MarketOpened);
        OccurrencesOfAppend(broadcasts, MarketClosed, MarketClosed);
        broadcasts := broadcasts + [MarketClosed];
      }
    }

    /** Reloads the default stocks and announces the reset; refuses, changing
        nothing, unless the market is closed. */
    method Reset() returns (outcome: ResetOutcome)
      requires Valid()
      modifies this
      ensures Valid()
      ensures old(marketState) != Closed ==>
        outcome == InvalidOperation(ResetRefusal) && stocks == old(stocks) && broadcasts == old(broadcasts)
      ensures old(marketState) == Closed ==>
        outcome == ResetDone && stocks == DefaultRegistry && broadcasts == old(broadcasts) + [MarketReset]
      ensures marketState == old(marketState) && timer == old(timer) && timersStarted == old(timersStarted)
      ensures updatingStockPrices == old(updatingStockPrices)
    {
      if marketState != Closed {
        return InvalidOperation(ResetRefusal);
      }
      LoadDefaultStocks();
      OccurrencesOfAppend(broadcasts, MarketReset, MarketOpened);
      OccurrencesOfAppend(broadcasts, MarketReset, MarketClosed);
      broadcasts := broadcasts + [MarketReset];
      outcome := ResetDone;
    }

    /** Clears the registry and adds the default stocks one by one. */
    method LoadDefaultStocks()
      modifies this
      ensures stocks == DefaultRegistry
      ensures marketState == old(marketState) && timer == old(timer)
      ensures updatingStockPrices == old(updatingStockPrices)
      ensures broadcasts == old(broadcasts) && timersStarted == old(timersStarted)
    {
      stocks := map[];
      for i := 0 to |DefaultStocks|
        invariant stocks == AddAll(DefaultStocks[..i])
        invariant marketState == old(marketState) && timer == old(timer)
        invariant updatingStockPrices == old(updatingStockPrices)
        invariant broadcasts == old(broadcasts) && timersStarted == old(timersStarted)
      {
        assert DefaultStocks[..i + 1][..i] == DefaultStocks[..i];
        stocks := TryAdd(stocks, DefaultStocks[i].symbol, DefaultStocks[i].price);
      }
      assert DefaultStocks[..|DefaultStocks|] == DefaultStocks;
      LoadingDefaultsGivesDefaultRegistry();
    }

    /** One timer tick. Unless a batch is already running, it nudges every
        stock once, each with its own update draw, and clears the busy flag
        again; while a batch is running it does nothing. Symbols are never
        added or removed. */
    method UpdateStockPrices(updateDraw: string -> Fraction, seeded: int -> SeededDraws)
      requires Valid()
      modifies this
      ensures Valid()
      ensures stocks.Keys == old(stocks).Keys
      ensures old(updatingStockPrices) ==> stocks == old(stocks) && updatingStockPrices
      ensures !old(updatingStockPrices) ==> !updatingStockPrices
      ensures !old(updatingStockPrices) ==>
        forall s :: s in stocks ==> stocks[s] == Nudge(old(stocks)[s], updateDraw(s), seeded).price
      ensures marketState == old(marketState) && timer == old(timer)
      ensures broadcasts == old(broadcasts) && timersStarted == old(timersStarted)
    {
      if !updatingStockPrices {
        updatingStockPrices := true;
        var pending := stocks.Keys;
        while pending != {}
          invariant Valid()
          invariant pending <= stocks.Keys
          invariant stocks.Keys == old(stocks).Keys
          invariant forall s :: s in pending ==> stocks[s] == old(stocks)[s]
          invariant forall s :: s in stocks && s !in pending ==>
            stocks[s] == Nudge(old(stocks)[s], updateDraw(s), seeded).price
          invariant updatingStockPrices
          invariant marketState == old(marketState) && timer == old(timer)
          invariant broadcasts == old(broadcasts) && timersStarted == old(timersStarted)
          decreases pending
        {
          var s :| s in pending;
          var _ := TryUpdateStockPrice(s, updateDraw(s), seeded);
          pending := pending - {s};
        }
        updatingStockPrices := false;
      }
    }

    /** Nudges the price of one stock and reports whether it moved. */
    method TryUpdateStockPrice(symbol: string, r: Fraction, seeded: int -> SeededDraws) returns (updated: bool)
      requires Valid() && symbol in stocks
      modifies this
      ensures Valid()
      ensures updated == Nudge(old(stocks)[symbol], r, seeded).updated
      ensures stocks == old(stocks)[symbol := Nudge(old(stocks)[symbol], r, seeded).price]
      ensures marketState == old(marketState) && timer == old(timer)
      ensures updatingStockPrices == old(updatingStockPrices)
      ensures broadcasts == old(broadcasts) && timersStarted == old(timersStarted)
    {
      var n := Nudge(stocks[symbol], r, seeded);
      NudgeKeepsPricePositive(stocks[symbol], r, seeded);
      stocks := stocks[symbol := n.price];
      updated := n.updated;
    }
  }
}
