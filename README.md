# StockTicker market engine in Dafny

This project models the market engine of the SignalR stock-ticker sample, the
`StockTicker` class. The engine holds a registry of three stocks (MSFT, AAPL
and GOOG) whose prices drift randomly while the market is open. Clients open,
close and reset the market. The engine announces each of these lifecycle
changes to every hub client as `marketOpened`, `marketClosed` or `marketReset`.
While the market is open, a 250 ms timer runs a price batch. Each batch nudges
every stock with probability about one in ten.

The model has three modules:

- `Pricing` (`pricing.dfy`) holds the per-stock nudge of `TryUpdateStockPrice`.
  - Prices are whole numbers of cents. The source keeps them as two-digit
    `decimal` values, and every change is rounded to two digits.
  - `Math.Round(decimal, 2)` rounds half to even by default. It is written out
    as `RoundHalfEven`. `RoundsTo` is the predicate it meets: nearest integer,
    ties to the even neighbour.
  - The random draws are parameters of type `Fraction`, a real in [0, 1).
    - The shared generator gives each stock one update draw, `r`.
    - The generator seeded from the stock's price gives the magnitude draw and
      then the sign draw. It is a function from the seed to those two draws.
- `Registry` (`registry.dfy`) covers the stock records, `ConcurrentDictionary.TryAdd`,
  and the default stocks that construction and every reset load.
- `Ticker` (`ticker.dfy`) holds the class `StockTicker`.
  - Its fields are the market state, the timer, the registry as a
    `map<string, int>` of cents, and the busy flag of the price batch.
  - A ghost log records the hub broadcasts. A ghost counter records how many
    timers were created.
  - `Valid()` is the class invariant that every operation keeps:
    - a running timer exists exactly while the market is open;
    - every created timer was announced by one `marketOpened`;
    - there is one more `marketOpened` than `marketClosed` while open, and as
      many of each while closed;
    - every price is above zero.

Three behaviours of the code are easy to misread:

- `Reset` on a market that is not closed ends in `InvalidOperationException`
  with the source's message. The model's `InvalidOperation` outcome carries it.
- `CloseMarket` disposes the timer but never clears the `_timer` field.
  `TimerState` therefore has three values: never created, running and disposed.
  The model keeps the source's null check before `Dispose`.
- A nudge's drift is bounded by the range factor times the price plus half a
  cent (`NudgeDriftIsBounded`). It is not bounded by the range factor times the
  price alone. `RoundingCanExceedRange` shows a 3.00 stock whose seeded
  magnitude draw is 0.99 moving by 0.01, while 0.002 × 3.00 is only 0.006.
  `RoundingCanExceedRangeAtDefaultPrice` shows AAPL at 158.44, with a seeded
  magnitude draw of 0.999, moving by 0.32, above its range of 0.31688. For a
  price of p cents the excess can show whenever some integer k satisfies
  0.002·p < k < 0.002·p + 0.5. Which draws a given seed yields is up to
  `System.Random` and is not modelled.

## Model

| member | source | states |
|---|---|---|
| `Pricing.RoundHalfEven` | StockTicker/StockTicker.SignalR/StockTickr/StockTicker.cs:165 | the result is the integer nearest to its argument, and on a tie it is the even neighbour (banker's rounding, the default of `Math.Round` on `decimal`) |
| `Pricing.RoundingIsUnique` | StockTicker/StockTicker.SignalR/StockTickr/StockTicker.cs:165 | at most one integer is the banker's rounding of a real, so `RoundHalfEven` is the only function meeting `RoundsTo` |
| `Pricing.PercentChange` | StockTicker/StockTicker.SignalR/StockTickr/StockTicker.cs:163 | the percentage change lies in [0, 0.002), the range factor `_rangePercent` |
| `Pricing.Seed` | StockTicker/StockTicker.SignalR/StockTickr/StockTicker.cs:162 | the seed is the price's whole-currency part rounded down: seed × 100 ≤ cents < seed × 100 + 100 |
| `Pricing.RawChange` | StockTicker/StockTicker.SignalR/StockTickr/StockTicker.cs:165 | the unrounded change, price × percentChange in cents, is at most 0.002 × the price's size and has the price's sign |
| `Pricing.SignedChange` | StockTicker/StockTicker.SignalR/StockTickr/StockTicker.cs:164-166 | the change's magnitude is price × percentChange rounded half-to-even to whole cents, and, for a non-negative price, it is positive only when the sign draw exceeds 0.51 |
| `Pricing.Nudge` | StockTicker/StockTicker.SignalR/StockTickr/StockTicker.cs:154-170 | the stock moves exactly when the update draw is at most 0.1; otherwise the price is unchanged. When it moves, the unsigned move is the banker's rounding of price × percentChange, and its sign follows the sign draw of the generator seeded from the price |
| `Pricing.SignedChangeIsBounded` | StockTicker/StockTicker.SignalR/StockTickr/StockTicker.cs:165-166 | the signed change is at most 0.002 × the price's size plus half a cent, and it never takes a positive price to zero or below |
| `Pricing.NudgeDriftIsBounded` | StockTicker/StockTicker.SignalR/StockTickr/StockTicker.cs:163-168 | one nudge moves a price by at most 0.002 × the price's size plus half a cent |
| `Pricing.NudgeKeepsPricePositive` | StockTicker/StockTicker.SignalR/StockTickr/StockTicker.cs:165-168 | a positive price stays positive after a nudge, although the code never clamps |
| `Pricing.NudgeDependsOnSeedOnly` | StockTicker/StockTicker.SignalR/StockTickr/StockTicker.cs:162-164 | the nudge uses the seeded generator only at the seed taken from the price: two generators that agree at that seed give the same nudge |
| `Pricing.RoundingCanExceedRange` | StockTicker/StockTicker.SignalR/StockTickr/StockTicker.cs:163-168 | a price of 3.00 with seeded magnitude draw 0.99 moves by one cent, which is more than 0.002 × the price |
| `Pricing.RoundingCanExceedRangeAtDefaultPrice` | StockTicker/StockTicker.SignalR/StockTickr/StockTicker.cs:163-168 | AAPL at 158.44 with seeded magnitude draw 0.999 moves up by 0.32, more than 0.002 × its price (0.31688) |
| `Registry.TryAdd` | StockTicker/StockTicker.SignalR/StockTickr/StockTicker.cs:129 | the key is added with its value when it is new; an existing entry is never overwritten; the key set grows by exactly that key |
| `Registry.AddAll` | StockTicker/StockTicker.SignalR/StockTickr/StockTicker.cs:120-129 | after the registry is cleared and each stock is added in turn, the keys are exactly the stocks' symbols, and each symbol carries the price of its first occurrence |
| `Registry.LoadingDefaultsGivesDefaultRegistry` | StockTicker/StockTicker.SignalR/StockTickr/StockTicker.cs:122-127 | loading the default list gives exactly {MSFT: 75.12, AAPL: 158.44, GOOG: 924.54}, all positive |
| `Ticker.StockTicker.constructor` | StockTicker/StockTicker.SignalR/StockTickr/StockTicker.cs:24-32 | a new engine is `Closed` (the enum's default), has no timer and no broadcasts, holds exactly the default stocks and satisfies the invariant |
| `Ticker.StockTicker.GetAllStocks` | StockTicker/StockTicker.SignalR/StockTickr/StockTicker.cs:42-45 | the stocks returned are exactly the registry's symbol/price pairs |
| `Ticker.StockTicker.NextSnapshot` | StockTicker/StockTicker.SignalR/StockTickr/StockTicker.cs:52-54 | one check of the stream loop yields exactly the registry's stocks while the market is open, and ends the stream otherwise |
| `Ticker.StockTicker.OpenMarket` | StockTicker/StockTicker.SignalR/StockTickr/StockTicker.cs:60-78 | on a market that is not open, it creates one running timer, sets `Open` and logs exactly one `marketOpened`. On an open market it creates no timer and logs nothing. Either way the registry and the busy flag are unchanged and the invariant holds |
| `Ticker.StockTicker.CloseMarket` | StockTicker/StockTicker.SignalR/StockTickr/StockTicker.cs:80-99 | on an open market, it disposes the timer, sets `Closed` and logs exactly one `marketClosed`. On a closed market it changes nothing. The invariant holds |
| `Ticker.StockTicker.Reset` | StockTicker/StockTicker.SignalR/StockTickr/StockTicker.cs:101-116 | a market that is not closed refuses with "Market must be closed before it can be reset." and keeps its registry, log, state and timer. A closed market holds exactly the default stocks afterwards, logs one `marketReset` and stays `Closed` |
| `Ticker.StockTicker.LoadDefaultStocks` | StockTicker/StockTicker.SignalR/StockTickr/StockTicker.cs:118-130 | whatever the registry held, it now holds exactly {MSFT: 75.12, AAPL: 158.44, GOOG: 924.54}; nothing else changes |
| `Ticker.StockTicker.UpdateStockPrices` | StockTicker/StockTicker.SignalR/StockTickr/StockTicker.cs:132-152 | the set of symbols never changes. With the busy flag set, nothing changes. Otherwise every stock gets exactly its own `Nudge`, the busy flag is clear again, and the lifecycle state, timer and log are untouched |
| `Ticker.StockTicker.TryUpdateStockPrice` | StockTicker/StockTicker.SignalR/StockTickr/StockTicker.cs:154-170 | only the named stock's price changes, to its `Nudge`, and the result reports whether the stock moved. The invariant, including positive prices, is kept |

## Left out

- The `SemaphoreSlim` locks, `async`/`await`, `volatile` and re-entrant timer
  callbacks exist for concurrency. Each operation is modelled as one atomic
  step.
- Ticker.StockTicker.UpdateStockPrices: the busy branch is stated but the model
  never reaches it. In the code, a tick that fires during a batch waits on
  `_updateStockPricesLock` (StockTicker.cs:135) and then runs a full batch of
  its own. Lines 140-145 set and clear the flag with no `await` between them.
  The flag stays set only when an exception escapes the loop, because the
  clearing at line 145 is outside the `finally` at lines 148-150. The
  `OverflowException` of the `(int)` cast at line 162 is such an exception
  (see the cast-overflow line below). The exception then leaves the
  `async void` timer handler (lines 132 and 67) unhandled, which in .NET
  terminates the process, so no later tick sees the flag set either. The model
  has no exceptions in a batch, so the flag is always clear between steps.
- `System.Threading.Timer` scheduling (the 250 ms due time and period) is not
  modelled. A timer is only never created, running or disposed. In-flight
  ticks after a close are not modelled.
- `System.Random` is library behaviour and is not modelled. Its draws are
  parameters in [0, 1).
- Ticker.StockTicker.UpdateStockPrices: the shared generator's draws are given
  per symbol, not as a stream consumed in the dictionary's (unspecified)
  enumeration order.
- The `double` arithmetic of `percentChange` and its conversion to `decimal`
  are floating point. They are taken as exact real arithmetic.
  - `decimal` precision limits (28 digits) are not modelled either.
- The overflow of the `(int)` cast of `Math.Floor(stock.Price)` is not
  modelled. It would need a price of at least 2^31 currency units. In the code
  it would end the process, as described above.
- Hub broadcasts (`Hub.Clients.All.SendAsync`) are network I/O. They are
  modelled as appends to a ghost log. The unused `BroadcastStockPrice` is
  dropped, and so is the hub context the constructor receives.
- Ticker.StockTicker.NextSnapshot: models one check of the `StreamStocks` loop
  only. The Rx `Observable`, the `Task.Delay` between checks and the
  subscriber are timing and concurrency.
- The public `MarketState` setter is not modelled. No caller in the repository
  uses it, and assigning the state from outside would break the timer
  invariant.
- `GetAllStocks` hands out the live `Stock` objects of the dictionary. The
  model returns values, so aliasing between a caller's copy and later price
  changes is not captured. The `Stock` class file is not part of this model;
  a stock is taken to be a symbol and a price.
- The hub wrapper (`StockTickerHub.cs`), the SignalR client, the view model,
  the event-argument records and the Android bootstrap are not part of this
  model.
