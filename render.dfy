/** Rendering of one feed activity into one journal entry: `print_trade`,
    `print_non_trade` and the two formatters they call. Printing to
    standard output becomes returning the entry. */
module Render {
  import opened Activities
  import opened Ledger

  /** Narration of entries the brokerage itself charges. */
  const ALPACA: string := "Alpaca Securities LLC"
  const DIVIDEND_ACCOUNT: string := "Income:Dividend"
  const FEE_ACCOUNT: string := "Expenses:Broker:Fee"

  const SECONDS_PER_DAY: nat := 86400
  const I32_MIN: int := -0x8000_0000
  const I32_MAX: int := 0x7fff_ffff

  datatype Error =
    | SymbolNotInRegistry(symbol: string)
    | DividendWithoutSymbol

  datatype Result<+T> = Ok(value: T) | Err(error: Error)

  /** What the renderer is given besides the activity itself: the two
      account names, the symbol-to-name registry and the account's
      reporting currency. */
  datatype Config = Config(
    investmentAccount: string,
    brokerageAccount: string,
    registry: map<string, string>,
    currency: string)

  /** The UTC calendar day on which instant `t` falls. */
  function FormatDate(t: Timestamp): (d: Date)
    ensures d.days * SECONDS_PER_DAY <= t.secs < (d.days + 1) * SECONDS_PER_DAY
  {
    Date(t.secs / SECONDS_PER_DAY)
  }

  /** A price in the reporting currency, kept exact; its decimal text is
      not modelled. */
  function FormatPrice(price: real, currency: string): (a: Amount)
    ensures a.value == price && a.currency == currency
  {
    Amount(price, currency)
  }

  /** The unsigned share count cast to a 32-bit signed integer, keeping the
      low 32 bits in two's complement. */
  function AsI32(q: nat): (r: int)
    ensures I32_MIN <= r <= I32_MAX
    ensures (q - r) % 0x1_0000_0000 == 0
    ensures q <= I32_MAX ==> r == q
  {
    var low := q % 0x1_0000_0000;
    if low <= I32_MAX then low else low - 0x1_0000_0000
  }

  /** The cash leg of a fill, `price × quantity × -multiplier`: what the
      brokerage account receives (negative when it pays). */
  function CashTotal(price: real, quantity: int, multiplier: int): real
  {
    price * quantity as real * (-multiplier) as real
  }

  /** +1 when shares come into the account, -1 when they leave it. */
  function Multiplier(side: Side): (m: int)
    ensures m == 1 || m == -1
    ensures m == 1 <==> side == Buy
  {
    match side
    case Buy => 1
    case Sell => -1
    case ShortSell => -1
  }

  /** The entry for an order fill: the shares move through the investment
      account at the fill price, and the cash leg goes to the brokerage
      account. Fails when the registry does not know the symbol. */
  function RenderTrade(
    trade: TradeActivity,
    investmentAccount: string,
    brokerageAccount: string,
    registry: map<string, string>,
    currency: string
  ): (r: Result<Entry>)
    ensures r.Err? <==> trade.symbol !in registry
    ensures r.Err? ==> r.error == SymbolNotInRegistry(trade.symbol)
    ensures r.Ok? ==>
      r.value.date == FormatDate(trade.transactionTime) &&
      r.value.name == registry[trade.symbol] &&
      r.value.comment == None &&
      |r.value.postings| == 2 &&
      r.value.postings[0].account == investmentAccount &&
      r.value.postings[1].account == brokerageAccount &&
      Balances(r.value) && InCurrency(r.value, currency)
  {
    if trade.symbol !in registry then Err(SymbolNotInRegistry(trade.symbol))
    else
      var multiplier := Multiplier(trade.side);
      var quantity := AsI32(trade.quantity);
      var shares := Posting(investmentAccount,
        Some(Lot(quantity * multiplier, trade.symbol, FormatPrice(trade.price, currency))), None);
      var cash := Posting(brokerageAccount,
        None, Some(FormatPrice(CashTotal(trade.price, quantity, multiplier), currency)));
      CashLegCancels(trade.price, quantity, multiplier);
      var e := Entry(FormatDate(trade.transactionTime), registry[trade.symbol], None, [shares, cash]);
      TwoPostingsBalance(e);
      Ok(e)
  }

  /** The value of the share leg and the cash leg of a trade cancel. */
  lemma CashLegCancels(price: real, quantity: int, multiplier: int)
    ensures (quantity * multiplier) as real * price + CashTotal(price, quantity, multiplier) == 0.0
  {
  }

  /** A rendered trade has exactly two postings: the investment account
      moves the cast share count times the side multiplier at the fill
      price and states no total; the brokerage account states only the
      cash total `price × count × -multiplier`. The two legs cancel. */
  lemma TradeLegs(
    trade: TradeActivity,
    investmentAccount: string,
    brokerageAccount: string,
    registry: map<string, string>,
    currency: string)
    requires trade.symbol in registry
    ensures RenderTrade(trade, investmentAccount, brokerageAccount, registry, currency).value.postings == [
      Posting(investmentAccount,
        Some(Lot(AsI32(trade.quantity) * Multiplier(trade.side), trade.symbol, Amount(trade.price, currency))), None),
      Posting(brokerageAccount, None,
        Some(Amount(CashTotal(trade.price, AsI32(trade.quantity), Multiplier(trade.side)), currency)))]
    ensures var q, m := AsI32(trade.quantity), Multiplier(trade.side);
      (q * m) as real * trade.price + CashTotal(trade.price, q, m) == 0.0
  {
    CashLegCancels(trade.price, AsI32(trade.quantity), Multiplier(trade.side));
  }

  /** For share counts that fit in 32 bits, the share leg moves
      `quantity × multiplier` shares and the cash leg books
      `price × quantity × -multiplier`. */
  lemma TradeLegsInRange(
    trade: TradeActivity,
    investmentAccount: string,
    brokerageAccount: string,
    registry: map<string, string>,
    currency: string)
    requires trade.symbol in registry
    requires trade.quantity <= I32_MAX
    ensures var e := RenderTrade(trade, investmentAccount, brokerageAccount, registry, currency).value;
      var shares := trade.quantity * Multiplier(trade.side);
      var cash := trade.price * trade.quantity as real * (-Multiplier(trade.side)) as real;
      e.postings[0].lot == Some(Lot(shares, trade.symbol, Amount(trade.price, currency))) &&
      e.postings[0].total == None &&
      e.postings[1].lot == None &&
      e.postings[1].total.Some? && e.postings[1].total.value.currency == currency &&
      e.postings[1].total.value.value == cash &&
      shares as real * trade.price + cash == 0.0
  {
    TradeLegs(trade, investmentAccount, brokerageAccount, registry, currency);
    assert AsI32(trade.quantity) == trade.quantity;
    assert trade.price * AsI32(trade.quantity) as real == trade.price * trade.quantity as real;
  }

  /** A buy of a positive share count at a non-negative price adds shares
      and takes cash; a sell or short sell removes shares and brings cash. */
  lemma TradeSigns(
    trade: TradeActivity,
    investmentAccount: string,
    brokerageAccount: string,
    registry: map<string, string>,
    currency: string)
    requires trade.symbol in registry
    requires 0 < trade.quantity <= I32_MAX && trade.price >= 0.0
    ensures var e := RenderTrade(trade, investmentAccount, brokerageAccount, registry, currency).value;
      var shares, cash := e.postings[0].lot.value.quantity, e.postings[1].total.value.value;
      if trade.side == Buy then shares > 0 && cash <= 0.0 else shares < 0 && cash >= 0.0
  {
    TradeLegsInRange(trade, investmentAccount, brokerageAccount, registry, currency);
    var q := trade.quantity as real;
    assert trade.price * q >= 0.0 by {
      assert trade.price * q >= 0.0 * q;
    }
    if trade.side == Buy {
      assert trade.price * q * (-1) as real == -(trade.price * q);
    } else {
      assert trade.price * q * (-(-1)) as real == trade.price * q;
    }
  }

  /** The 32-bit cast is taken as written: a buy of 2^31 shares is booked
      as a sale of 2^31 shares. */
  lemma OversizedBuyFlipsSign(trade: TradeActivity, investmentAccount: string,
                              brokerageAccount: string, registry: map<string, string>, currency: string)
    requires trade.symbol in registry && trade.side == Buy && trade.quantity == 0x8000_0000
    ensures RenderTrade(trade, investmentAccount, brokerageAccount, registry, currency)
      .value.postings[0].lot.value.quantity == -0x8000_0000
  {
    TradeLegs(trade, investmentAccount, brokerageAccount, registry, currency);
  }

  /** Whether the renderer writes an entry for a non-trade of this kind. */
  predicate IsRendered(kind: ActivityType)
  {
    kind == Dividend || kind == PassThruCharge
  }

  /** The entry for a non-trade activity: a dividend is booked against the
      dividend income account under the registry name of its symbol, a
      pass-through charge against the broker fee account under the
      brokerage's name, with its description as a comment. Other kinds
      produce no entry. A dividend without a symbol, or with one the
      registry lacks, fails. */
  function RenderNonTrade(
    nonTrade: NonTradeActivity,
    brokerageAccount: string,
    registry: map<string, string>,
    currency: string
  ): (r: Result<Option<Entry>>)
    ensures r.Err? <==>
      nonTrade.kind == Dividend && (nonTrade.symbol == None || nonTrade.symbol.value !in registry)
    ensures r.Err? ==>
      r.error == if nonTrade.symbol == None then DividendWithoutSymbol
                 else SymbolNotInRegistry(nonTrade.symbol.value)
    ensures r.Ok? ==> (r.value.Some? <==> IsRendered(nonTrade.kind))
    ensures r.Ok? && r.value.Some? ==>
      r.value.value.date == FormatDate(nonTrade.date) &&
      |r.value.value.postings| == 2 &&
      r.value.value.postings[1] == Posting(brokerageAccount, None, Some(Amount(nonTrade.netAmount, currency))) &&
      Balances(r.value.value) && InCurrency(r.value.value, currency)
    ensures r.Ok? && nonTrade.kind == Dividend ==>
      r.value.value.name == registry[nonTrade.symbol.value] &&
      r.value.value.comment == None &&
      r.value.value.postings[0] == Posting(DIVIDEND_ACCOUNT, None, None)
    ensures nonTrade.kind == PassThruCharge ==>
      r.Ok? &&
      r.value.value.name == ALPACA &&
      r.value.value.comment == nonTrade.description &&
      r.value.value.postings[0] == Posting(FEE_ACCOUNT, None, None)
  {
    match nonTrade.kind
    case Dividend =>
      if nonTrade.symbol.None? then Err(DividendWithoutSymbol)
      else if nonTrade.symbol.value !in registry then Err(SymbolNotInRegistry(nonTrade.symbol.value))
      else
        var e := Entry(FormatDate(nonTrade.date), registry[nonTrade.symbol.value], None,
          [Posting(DIVIDEND_ACCOUNT, None, None),
           Posting(brokerageAccount, None, Some(FormatPrice(nonTrade.netAmount, currency)))]);
        TwoPostingsBalance(e);
        Ok(Some(e))
    case PassThruCharge =>
      var e := Entry(FormatDate(nonTrade.date), ALPACA, nonTrade.description,
        [Posting(FEE_ACCOUNT, None, None),
         Posting(brokerageAccount, None, Some(FormatPrice(nonTrade.netAmount, currency)))]);
      TwoPostingsBalance(e);
      Ok(Some(e))
    case _ => Ok(None)
  }

  /** One step of the driver loop: a trade always yields an entry, a
      non-trade may yield none. */
  function RenderActivity(activity: Activity, cfg: Config): (r: Result<Option<Entry>>)
    ensures activity.Trade? && r.Ok? ==> r.value.Some?
    ensures r.Ok? && r.value.Some? ==> Balances(r.value.value) && InCurrency(r.value.value, cfg.currency)
  {
    match activity
    case Trade(trade) =>
      (match RenderTrade(trade, cfg.investmentAccount, cfg.brokerageAccount, cfg.registry, cfg.currency)
       case Ok(e) => Ok(Some(e))
       case Err(err) => Err(err))
    case NonTrade(nonTrade) =>
      RenderNonTrade(nonTrade, cfg.brokerageAccount, cfg.registry, cfg.currency)
  }
}
