/** The account-activity feed of the brokerage, as the journal renderer
    receives it: every record is either an order fill (a trade) or some
    other money movement (a non-trade). Only the fields the renderer
    reads are kept. */
module Activities {

  datatype Option<+T> = None | Some(value: T)

  /** An instant at or after the Unix epoch, in whole seconds plus nanoseconds. */
  datatype Timestamp = Timestamp(secs: nat, nanos: nat)

  /** The side of a filled order. */
  datatype Side = Buy | Sell | ShortSell

  /** The kind of a non-trade activity. The renderer acts on dividends and
      pass-through charges; every other code the feed reports is collected
      under the remaining constructors. */
  datatype ActivityType =
    | Dividend
    | PassThruCharge
    | Fee
    | Interest
    | Acquisition
    | StockSplit
    | CashDeposit
    | CashWithdrawal
    | OtherType(code: string)

  /** An order fill: `quantity` shares of `symbol` at `price` each. The
      price is an exact decimal, the quantity a whole number of shares. */
  datatype TradeActivity = TradeActivity(
    id: string,
    transactionTime: Timestamp,
    symbol: string,
    side: Side,
    price: real,
    quantity: nat)

  /** A cash movement that is not an order fill; `netAmount` is signed as
      seen from the account (a charge is negative). */
  datatype NonTradeActivity = NonTradeActivity(
    id: string,
    kind: ActivityType,
    date: Timestamp,
    netAmount: real,
    symbol: Option<string>,
    description: Option<string>)

  datatype Activity = Trade(trade: TradeActivity) | NonTrade(nonTrade: NonTradeActivity)
}
