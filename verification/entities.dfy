/** The JPA entities and request bodies the services work on, with every nullable
    Java field as an `Option`, and the error codes the services raise. */
module Entities {
  import opened Wrappers

  type PlayerId = string
  type StockId = int

  /** A `Player` row: its key, password and cash balance. */
  datatype Player = Player(id: Option<PlayerId>, password: Option<string>, money: Option<real>)

  /** A `Stock` row: its generated key, display name and unit price. */
  datatype Stock = Stock(id: Option<StockId>, name: Option<string>, price: Option<real>)

  /** A `PlayerStock` row: the quantity of one stock that one player holds. */
  datatype PlayerStock = PlayerStock(player: PlayerId, stock: StockId, quantity: Option<int>)

  /** The body of a buy or sell request. */
  datatype StockOrder = StockOrder(stockId: Option<StockId>, quantity: Option<int>)

  /** The body of a login request. */
  datatype PlayerSession = PlayerSession(playerId: Option<PlayerId>, password: Option<string>)

  /** The table a `DATA_NOT_FOUND` refers to. */
  datatype Table = Players | Stocks | PlayerStocks

  /** The error codes the services raise. `InvalidParameter` is a `ParameterException`;
      `SystemError` is what a `NullPointerException` becomes. */
  datatype Error =
    | SessionNotFound
    | InvalidParameter
    | DataNotFound(table: Table)
    | DataDuplicated
    | NotAuthenticated
    | InsufficientFunds
    | InsufficientQuantity
    | SystemError

  /** The order checks of buy and sell: a non-null body with a stock id and a quantity
      that are both present and at least 1 (the `@Min(1)` limits of the request). */
  predicate ValidOrder(order: Option<StockOrder>) {
    && order.Some?
    && order.value.stockId.Some? && order.value.stockId.value > 0
    && order.value.quantity.Some? && order.value.quantity.value > 0
  }
}
