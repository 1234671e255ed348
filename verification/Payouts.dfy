/**
  The coins of an order fill: what its owner is credited, and what is refunded to a bid that
  cleared below its price.
 */
module Payouts {
  import opened Wrappers
  import opened Dec
  import opened Division
  import opened Orders
  import opened Fills
  import opened Quote

  datatype Coin = Coin(denom: nat, amount: nat)

  /** The two currencies of a market. */
  datatype Currencies = Currencies(baseDenom: nat, quoteDenom: nat, baseDecimals: nat, quoteDecimals: nat)

  datatype CoinResult = Made(coin: Coin) | NotMade | MakingPanics

  /** A base amount at a price, as a quote coin; not made when it is less than one unit. */
  function QuoteCoin(price: nat, quantity: nat, m: Currencies): CoinResult {
    match BaseToQuoteQuantity(price, quantity, m.baseDecimals, m.quoteDecimals)
    case Converted(amount) => Made(Coin(m.quoteDenom, amount))
    case TooSmall => NotMade
    case Panics => MakingPanics
  }

  /** A bid receives the base quantity, an ask its value at the clearance price. */
  function FillCoin(f: OrderFill, m: Currencies): CoinResult {
    match f.order.direction
    case Bid => Made(Coin(m.baseDenom, f.filled))
    case Ask => QuoteCoin(f.clearancePrice, f.filled, m)
  }

  /** Not made when nothing is due, or too little; neither is an error. */
  function RefundCoin(f: OrderFill, m: Currencies): CoinResult {
    if f.order.direction == Bid && f.clearancePrice < f.order.price
    then QuoteCoin(f.order.price - f.clearancePrice, f.filled, m)
    else NotMade
  }

  /** What is locked when an order is posted; an order whose coin is not made is not accepted. */
  function LockCoin(o: Order, m: Currencies): CoinResult {
    match o.direction
    case Bid => QuoteCoin(o.price, o.quantity, m)
    case Ask => Made(Coin(m.baseDenom, o.quantity))
  }

  /** What a fill pays: nothing when its fill coin is not made, else that coin and the refund, if one is made. */
  datatype Payout = Unpayable | Payout(fill: Coin, refund: Option<Coin>)

  function PayoutOf(f: OrderFill, m: Currencies): Payout {
    match FillCoin(f, m)
    case Made(fill) =>
      Payout(fill, match RefundCoin(f, m) case Made(refund) => Some(refund) case _ => None)
    case _ => Unpayable
  }

  /** Both currencies have at most 18 decimals, as all conversions require. */
  predicate Convertible(m: Currencies) {
    m.baseDecimals <= MAX_DECIMALS && m.quoteDecimals <= MAX_DECIMALS
  }

  /** A quantity at a price, before it is scaled to quote units. */
  function Worth(price: nat, quantity: nat): nat {
    price * quantity
  }

  /** An amount worth less than one quote unit, by the exact rule of the conversion. */
  predicate BelowOneUnit(amount: nat, m: Currencies)
    requires Convertible(m)
  {
    var unit := Pow10(m.baseDecimals);
    if m.baseDecimals + m.quoteDecimals <= MAX_DECIMALS then amount < unit
    else
      var step := Pow10(m.baseDecimals + m.quoteDecimals - MAX_DECIMALS);
      2 * amount + step < 2 * unit || (2 * amount + step == 2 * unit && Pow10(MAX_DECIMALS - m.quoteDecimals) % 2 == 1)
  }

  lemma {:induction false} QuoteCoinIff(price: nat, quantity: nat, m: Currencies)
    requires Convertible(m)
    ensures var r := QuoteCoin(price, quantity, m);
            && !r.MakingPanics?
            && (r.NotMade? <==> BelowOneUnit(Worth(price, quantity), m))
            && (r.Made? ==> r.coin.denom == m.quoteDenom && r.coin.amount > 0)
  {
    hide BaseToQuoteQuantity, Product, Pow10;
    ProductIsTimes(price, quantity);
    TooSmallIff(price, quantity, m.baseDecimals, m.quoteDecimals);
    ConversionBound(price, quantity, m.baseDecimals, m.quoteDecimals);
  }

  /** A fill is skipped exactly when it is an ask's and worth less than one quote unit. */
  lemma {:induction false} SkippedIff(f: OrderFill, m: Currencies)
    requires Convertible(m)
    ensures PayoutOf(f, m) == Unpayable <==>
            f.order.direction == Ask && BelowOneUnit(Worth(f.clearancePrice, f.filled), m)
  {
    hide QuoteCoin, BelowOneUnit, Worth;
    QuoteCoinIff(f.clearancePrice, f.filled, m);
  }

  /**
    The quote units an amount is worth: divided by one base unit and rounded down, except that
    with more than 18 decimals in all a remainder within half a rounding step of the next unit
    counts as a whole one (a tie does when the next unit is an even number of steps).
   */
  function QuoteAmount(worth: nat, m: Currencies): nat
    requires Convertible(m)
  {
    var unit := Pow10(m.baseDecimals);
    var floor, rest := Floor(worth, unit), Rest(worth, unit);
    if m.baseDecimals + m.quoteDecimals <= MAX_DECIMALS then floor
    else
      var step, steps := Pow10(m.baseDecimals + m.quoteDecimals - MAX_DECIMALS), Pow10(MAX_DECIMALS - m.quoteDecimals);
      var even := (floor + 1) % 2 == 0 || steps % 2 == 0;
      if 2 * rest + step > 2 * unit || (2 * rest + step == 2 * unit && even) then floor + 1 else floor
  }

  lemma {:induction false} EvenProduct(x: nat, y: nat)
    ensures Product(x, y) % 2 == 0 <==> x % 2 == 0 || y % 2 == 0
  {
    if x > 0 { EvenProduct(x - 1, y); }
  }

  /** A quote coin has the amount it is worth, and is not made when that is nothing. */
  lemma {:induction false} QuoteCoinAmount(price: nat, quantity: nat, m: Currencies)
    requires Convertible(m)
    ensures var amount := QuoteAmount(Worth(price, quantity), m);
            QuoteCoin(price, quantity, m) == if amount == 0 then NotMade else Made(Coin(m.quoteDenom, amount))
  {
    hide Product, Quotient, Pow10, BaseToQuoteQuantity, Floor, Rest;
    var x, unit := Product(price, quantity), Pow10(m.baseDecimals);
    ProductIsTimes(price, quantity);
    QuotientIsFloor(x, unit);
    DivisionWithRest(x, unit);
    if m.baseDecimals + m.quoteDecimals <= MAX_DECIMALS {
      ExactConversion(price, quantity, m.baseDecimals, m.quoteDecimals);
    } else {
      RoundedConversion(price, quantity, m.baseDecimals, m.quoteDecimals);
      EvenProduct(Floor(x, unit) + 1, Pow10(MAX_DECIMALS - m.quoteDecimals));
    }
  }

  /** An ask is paid what its fill is worth at the clearance price, and skipped when that is nothing. */
  lemma {:induction false} AskPaid(f: OrderFill, m: Currencies)
    requires Convertible(m) && f.order.direction == Ask
    ensures var amount := QuoteAmount(Worth(f.clearancePrice, f.filled), m);
            PayoutOf(f, m) == if amount == 0 then Unpayable else Payout(Coin(m.quoteDenom, amount), None)
  {
    hide QuoteCoin, QuoteAmount, Worth;
    QuoteCoinAmount(f.clearancePrice, f.filled, m);
  }

  /** A bid is always paid its whole base quantity, and refunded what the fill is worth at the price difference. */
  lemma {:induction false} BidPaid(f: OrderFill, m: Currencies)
    requires Convertible(m) && f.order.direction == Bid
    ensures var diff := if f.clearancePrice < f.order.price then f.order.price - f.clearancePrice else 0;
            var amount := if diff == 0 then 0 else QuoteAmount(Worth(diff, f.filled), m);
            PayoutOf(f, m)
            == Payout(Coin(m.baseDenom, f.filled), if amount == 0 then None else Some(Coin(m.quoteDenom, amount)))
  {
    hide QuoteCoin, QuoteAmount, Worth;
    if f.clearancePrice < f.order.price {
      QuoteCoinAmount(f.order.price - f.clearancePrice, f.filled, m);
    }
  }

  /** A bid locks what its whole quantity is worth at its own price, an ask its quantity. */
  lemma {:induction false} LockedIs(o: Order, m: Currencies)
    requires Convertible(m)
    ensures var amount := QuoteAmount(Worth(o.price, o.quantity), m);
            LockCoin(o, m) == if o.direction == Ask then Made(Coin(m.baseDenom, o.quantity))
                              else if amount == 0 then NotMade else Made(Coin(m.quoteDenom, amount))
  {
    hide QuoteCoin, QuoteAmount, Worth;
    QuoteCoinAmount(o.price, o.quantity, m);
  }

  /** What a fill owes an account in one denom, in terms of the quantities alone. */
  function Owed(f: OrderFill, m: Currencies, owner: nat, denom: nat): nat
    requires Convertible(m)
  {
    if f.order.owner != owner then 0
    else
      match f.order.direction
      case Ask => if denom == m.quoteDenom then QuoteAmount(Worth(f.clearancePrice, f.filled), m) else 0
      case Bid =>
        (if denom == m.baseDenom then f.filled else 0) +
        (if denom == m.quoteDenom && f.clearancePrice < f.order.price
         then QuoteAmount(Worth(f.order.price - f.clearancePrice, f.filled), m) else 0)
  }
}
