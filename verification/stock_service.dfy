/** `StockService`: the stock record operations. */
module StockService {
  import opened Wrappers
  import opened Text
  import opened Entities
  import opened Store

  /** Some stored stock already carries `name` (`findByStockName(name).isPresent()`). */
  predicate NameTaken(stocks: map<StockId, Stock>, name: string) {
    exists s :: s in stocks && stocks[s].name == Some(name)
  }

  /** A non-null stock with a non-blank name and a price above zero. */
  predicate ValidStock(stock: Option<Stock>) {
    && stock.Some? && !IsBlank(stock.value.name)
    && stock.value.price.Some? && stock.value.price.value > 0.0
  }

  /** `getStockById`. */
  function GetStockById(l: Ledger, id: StockId): (r: Result<Stock, Error>)
    ensures r.Success? <==> id in l.stocks
    ensures r.Failure? ==> r.error == DataNotFound(Stocks)
    ensures r.Success? ==> r.value == l.stocks[id]
    ensures Wf(l) && r.Success? ==> r.value.id == Some(id)
  {
    if id !in l.stocks then Failure(DataNotFound(Stocks)) else Success(l.stocks[id])
  }

  /** `createStock`: stores the stock under the next generated id and returns that id.
      An id carried by the request is ignored. */
  function CreateStock(l: Ledger, stock: Option<Stock>): (r: Result<(Ledger, StockId), Error>)
    ensures r == Failure(InvalidParameter) <==> !ValidStock(stock)
    ensures r == Failure(DataDuplicated) <==> ValidStock(stock) && NameTaken(l.stocks, stock.value.name.value)
    ensures r.Success? <==> ValidStock(stock) && !NameTaken(l.stocks, stock.value.name.value)
    ensures r.Success? ==>
      var (l2, id) := r.value;
      && l2.stocks.Keys == l.stocks.Keys + {id}
      && l2.stocks[id] == stock.value.(id := Some(id))
      && (forall s :: s in l.stocks && s != id ==> l2.stocks[s] == l.stocks[s])
      && l2.players == l.players && l2.holdings == l.holdings
      && id < l2.nextStockId
    ensures r.Success? && Wf(l) ==> r.value.1 !in l.stocks
  {
    if !ValidStock(stock) then Failure(InvalidParameter)
    else if NameTaken(l.stocks, stock.value.name.value) then Failure(DataDuplicated)
    else
      var id := l.nextStockId;
      Success((l.(stocks := l.stocks[id := stock.value.(id := Some(id))], nextStockId := id + 1), id))
  }

  /** The checks `updateStock` makes: a valid stock that also carries an id. */
  predicate ValidUpdate(stock: Option<Stock>) {
    ValidStock(stock) && stock.value.id.Some?
  }

  /** `updateStock`: replaces the row with the given id by the given stock. The new name
      is not checked against the other rows. */
  function UpdateStock(l: Ledger, stock: Option<Stock>): (r: Result<Ledger, Error>)
    ensures r == Failure(InvalidParameter) <==> !ValidUpdate(stock)
    ensures r == Failure(DataNotFound(Stocks)) <==> ValidUpdate(stock) && stock.value.id.value !in l.stocks
    ensures r.Success? <==> ValidUpdate(stock) && stock.value.id.value in l.stocks
    ensures r.Success? ==>
      var id := stock.value.id.value;
      && r.value.stocks.Keys == l.stocks.Keys
      && r.value.stocks[id] == stock.value
      && (forall s :: s in l.stocks && s != id ==> r.value.stocks[s] == l.stocks[s])
      && r.value.players == l.players && r.value.holdings == l.holdings
      && r.value.nextStockId == l.nextStockId
  {
    if !ValidUpdate(stock) then Failure(InvalidParameter)
    else if stock.value.id.value !in l.stocks then Failure(DataNotFound(Stocks))
    else Success(l.(stocks := l.stocks[stock.value.id.value := stock.value]))
  }

  /** `deleteStock`: removes the row with the given id; holdings of it stay. */
  function DeleteStock(l: Ledger, stock: Option<Stock>): (r: Result<Ledger, Error>)
    ensures r == Failure(InvalidParameter) <==> stock.None? || stock.value.id.None?
    ensures r == Failure(DataNotFound(Stocks)) <==>
      stock.Some? && stock.value.id.Some? && stock.value.id.value !in l.stocks
    ensures r.Success? <==> stock.Some? && stock.value.id.Some? && stock.value.id.value in l.stocks
    ensures r.Success? ==>
      && r.value.stocks.Keys == l.stocks.Keys - {stock.value.id.value}
      && (forall s :: s in r.value.stocks ==> r.value.stocks[s] == l.stocks[s])
      && r.value.players == l.players && r.value.holdings == l.holdings
      && r.value.nextStockId == l.nextStockId
  {
    if stock.None? || stock.value.id.None? then Failure(InvalidParameter)
    else if stock.value.id.value !in l.stocks then Failure(DataNotFound(Stocks))
    else Success(l.(stocks := l.stocks - {stock.value.id.value}))
  }
}
