# apcaledge journal renderer, in Dafny

`apcaledge` fetches the activity feed of an Alpaca brokerage account and
prints every activity as a double-entry journal block in the plain-text
`ledger` format. This project models the renderer at the heart of
`src/main.rs`:

- `print_trade` — an order fill becomes a block that moves
  `quantity × multiplier` shares through the investment account at the fill
  price, balanced by `price × quantity × −multiplier` in the brokerage
  account; the multiplier is +1 for a buy and −1 for a sell or short sell,
  and the narration is the symbol's name from the registry.
- `print_non_trade` — a dividend (which must carry a symbol the registry
  knows) is booked from `Income:Dividend` into the brokerage account; a
  pass-through charge is booked against `Expenses:Broker:Fee` under the
  name `Alpaca Securities LLC`, with its description as a `; comment`;
  every other activity kind is skipped without error.
- `activities_list` — walks the fetched feed in reverse and stops at the
  first activity that fails, leaving what was already printed.

Printed blocks are modelled as structured `Ledger.Entry` values (date,
narration, optional comment, postings with an account, an optional
`qty SYM @ price` lot and an optional total). Prices are exact (`real`), as
the program's decimal type is. The registry is a `map<string, string>`; the
reporting currency and the activity list, which the program fetches over
the network, are parameters.

Modules: `Activities` (the feed's records), `Ledger` (journal entries and
what it means for one to balance), `Render` (`print_trade`,
`print_non_trade` and their formatters), `Driver` (`activities_list`).
`Driver.ActivitiesList` is the imperative loop; it is proved equal to the
functional walk `Driver.Journal` over the reversed feed, and the walk's
properties (fail-fast, order, balance) are proved as lemmas.

## Model

| member | source | states |
|---|---|---|
| `Render.FormatPrice` | src/main.rs:66-71 | the amount keeps the exact price and the reporting currency; its decimal text is not modelled |
| `Render.FormatDate` | src/main.rs:73-88 | the date is the UTC day containing the instant: `days × 86400 ≤ secs < (days + 1) × 86400` |
| `Render.AsI32` | src/main.rs:115-119 | the `as i32` cast of the share count: the result lies in the i32 range, agrees with the count modulo 2^32, and equals the count whenever it fits |
| `Render.Multiplier` | src/main.rs:101-105 | the side multiplier is +1 or −1, and +1 exactly for `Buy` (so −1 for both `Sell` and `ShortSell`) |
| `Render.RenderTrade` | src/main.rs:90-124 | fails, with the symbol-not-in-registry error, exactly when the symbol is missing from the registry; otherwise the entry is dated on the fill's UTC day, named by the registry, has no comment, posts to the investment then the brokerage account, balances, and states all amounts in the reporting currency |
| `Render.TradeLegs` | src/main.rs:101-121 | for every share count, the entry has exactly two postings: the investment account with the lot `(quantity as i32) × multiplier` of the symbol at the fill price and no total, then the brokerage account with no lot and the total `price × (quantity as i32) × −multiplier`; the share leg's value and the cash total sum to zero |
| `Render.TradeLegsInRange` | src/main.rs:101-121 | for a share count that fits in i32, the share posting is `quantity × multiplier` of the symbol at the fill price with no total, the cash posting has no lot and the total `price × quantity × −multiplier`, and `shares × price + cash = 0` |
| `Render.TradeSigns` | src/main.rs:101-121 | for a positive share count and non-negative price, a buy yields positive shares and a non-positive cash total; a sell or short sell yields negative shares and a non-negative cash total |
| `Render.OversizedBuyFlipsSign` | src/main.rs:115 | a buy of 2^31 shares is, through the truncating cast, booked as −2^31 shares |
| `Render.RenderNonTrade` | src/main.rs:126-177 | fails exactly for a dividend without a symbol (missing-symbol error) or with an unknown one (symbol-not-in-registry error); writes an entry exactly for dividends and pass-through charges, dated on the activity's UTC day, posting `net_amount` unchanged to the brokerage account and balancing; a dividend is named by the registry against an amount-less `Income:Dividend` posting; a pass-through charge never fails, is named `Alpaca Securities LLC`, carries a comment exactly when it has a description, and posts against `Expenses:Broker:Fee` |
| `Render.RenderActivity` | src/main.rs:199-210 | a trade that renders always yields an entry, and every entry yielded balances in the reporting currency |
| `Driver.Reversed` | src/main.rs:198 | the reversed feed has the same length and element `i` is element `|s| − 1 − i` of the feed |
| `Driver.ReversedAppend` | src/main.rs:198 | reversing a concatenation reverses both parts and swaps them |
| `Driver.Journal` | src/main.rs:198-212 | a walk writes at most one entry per activity, and every entry it writes balances and is in the reporting currency |
| `Driver.JournalSnoc` | src/main.rs:198-212 | extending a walk that has not failed by one activity renders that activity after all earlier output, and fails with its error if it does not render |
| `Driver.JournalStops` | src/main.rs:198-212 | once a walk has failed, no later activity is processed: appending activities changes neither output nor error |
| `Driver.JournalSucceeds` | src/main.rs:198-212 | a walk ends without error exactly when every activity renders |
| `Driver.JournalFailsAtFirstError` | src/main.rs:198-212 | a failed walk stops at the first activity that does not render, reports that activity's error, and keeps exactly the entries of the activities before it |
| `Driver.TradesRenderInOrder` | src/main.rs:198-206 | a walk over trades with known symbols succeeds with one entry per trade, entry `i` being trade `i`'s entry |
| `Driver.FeedRenderedInReverse` | src/main.rs:198-206 | the driver writes the fetched feed in reverse: for a feed of known trades, entry `i` is that of feed activity `|feed| − 1 − i` |
| `Driver.IgnoredActivityVanishes` | src/main.rs:174-176 | a non-trade of a kind other than dividend or pass-through charge leaves the output and error unchanged wherever it sits in the feed |
| `Driver.ActivitiesList` | src/main.rs:179-213 | the loop over the reversed feed produces exactly the entries and error of the fail-fast walk over the reversed feed |

## Left out

- Network access: the account-information and activity requests (src/main.rs:185-196) and their transport errors; the currency and the activity list are parameters of `Driver.ActivitiesList`.
- `run` and `main` (src/main.rs:215-264): argument parsing, logging setup, reading the registry file as JSON, credentials from the environment, the async runtime and the exit code. src/args.rs is declarative argument configuration and is not part of this model.
- Text layout: the column widths and templates of the printed blocks, the `*` cleared marker, and writing to standard output; entries are structured values instead.
- Render.FormatPrice: the decimal text of an amount (at least two fractional digits) is not modelled; the amount keeps the exact price and the currency.
- Render.FormatDate: the `YYYY-MM-DD` text of the date is not modelled (the date is a day count). Instants before the Unix epoch, on which the program panics, cannot be represented. The program also panics for instants whose seconds exceed the `i64` range (src/main.rs:76) or fall outside the date range of its time library (src/main.rs:78); the model returns a date for these.
- Render.RenderTrade: the i32 multiplication `quantity as i32 * multiplier` overflows when the truncated count is −2^31 and the side is a sell or short sell (a panic in debug builds, a wrap in release builds); the model computes the mathematical product.
- Feed fields the renderer never reads (order id, cumulative and unfilled quantities, activity type of a fill) are not part of the records.
- Partial-fill merging, fee-to-trade association, day-by-day pagination, and rendering of interest, fees, acquisitions, stock splits and cash transfers belong to later revisions of the program; this revision of `src/main.rs` has none of them (it skips every non-trade other than dividends and pass-through charges), and the model follows this code.
