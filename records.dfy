/** The rows the backend stores and the frontend receives as JSON: a holding
    (one position of one user in one ticker) and a transaction (one executed
    trade).  `owner` is the user id; the frontend ignores it. */
module Records {
  import opened Wrappers

  datatype TxType = Buy | Sell

  datatype Holding = Holding(
    owner: nat,
    ticker: string,
    quantity: int,
    averagePurchasePrice: real)

  datatype Transaction = Transaction(
    owner: nat,
    ticker: string,
    kind: TxType,
    quantity: int,
    pricePerShare: real,
    timestamp: int,
    profitOrLoss: Option<real>)

  /** The cost basis of a holding: what was paid for the shares still held. */
  function CostBasis(h: Holding): real {
    h.averagePurchasePrice * h.quantity as real
  }

  /** What a transaction adds to realized P/L: the recorded amount of a SELL,
      nothing for a BUY or for a SELL whose amount is missing. */
  function RealizedAmount(tx: Transaction): real {
    if tx.kind == Sell && tx.profitOrLoss.Some? then tx.profitOrLoss.value else 0.0
  }
}
