/** Properties relating several service calls: the ledger invariants each operation keeps,
    buy and sell undoing each other, record round trips, and runs of orders. */
module LedgerProperties {
  import opened Wrappers
  import opened Text
  import opened Entities
  import opened Store
  import opened PlayerService
  import opened StockService

  /** A successful buy keeps the invariants, and keeps every balance non-negative. */
  lemma BuyPreservesInvariants(l: Ledger, session: Option<PlayerId>, order: Option<StockOrder>)
    requires Inv(l) && Buy(l, session, order).Success?
    ensures Inv(Buy(l, session, order).value)
    ensures Solvent(l) ==> Solvent(Buy(l, session, order).value)
  {
    ApplyBuyPreservesInvariants(l, session.value, OrderStock(order), OrderQuantity(order));
  }

  /** The writes of a buy keep the invariants; they keep balances non-negative when the
      balance covered the cost. */
  lemma ApplyBuyPreservesInvariants(l: Ledger, player: PlayerId, stock: StockId, qty: int)
    requires Inv(l) && qty > 0
    requires player in l.players && l.players[player].money.Some?
    requires stock in l.stocks && l.stocks[stock].price.Some?
    ensures Inv(ApplyBuy(l, player, stock, qty))
    ensures Solvent(l) && Cost(l, stock, qty) <= l.players[player].money.value ==>
      Solvent(ApplyBuy(l, player, stock, qty))
  {
    // Not needed for validity: a hint about the touched row that shortens the solver's search.
    var l2 := ApplyBuy(l, player, stock, qty);
    var key := (player, stock);
    assert HeldQuantity(l, player, stock) >= 0;
    assert l2.holdings[key].player == player && l2.holdings[key].stock == stock;
  }

  /** A successful sell keeps the invariants and, since every price is positive, keeps
      every balance non-negative. */
  lemma SellPreservesInvariants(l: Ledger, session: Option<PlayerId>, order: Option<StockOrder>)
    requires Inv(l) && Sell(l, session, order).Success?
    ensures Inv(Sell(l, session, order).value)
    ensures Solvent(l) ==> Solvent(Sell(l, session, order).value)
  {
    ApplySellPreservesInvariants(l, session.value, OrderStock(order), OrderQuantity(order));
  }

  /** The writes of a sell keep the invariants and keep balances non-negative. */
  lemma ApplySellPreservesInvariants(l: Ledger, player: PlayerId, stock: StockId, qty: int)
    requires Inv(l) && qty > 0
    requires player in l.players && (player, stock) in l.holdings
    requires stock in l.stocks && l.stocks[stock].price.Some?
    requires HeldQuantity(l, player, stock) >= qty
    ensures Inv(ApplySell(l, player, stock, qty))
    ensures Solvent(l) ==> Solvent(ApplySell(l, player, stock, qty))
  {
    // Not needed for validity: a hint about the touched row that shortens the solver's search.
    var l2 := ApplySell(l, player, stock, qty);
    var key := (player, stock);
    if key in l2.holdings {
      assert l2.holdings[key].quantity.value == HeldQuantity(l, player, stock) - qty;
    }
  }

  /** `createPlayer` keeps the invariants. */
  lemma CreatePlayerPreservesInvariants(l: Ledger, player: Option<Player>)
    requires Inv(l) && CreatePlayer(l, player).Success?
    ensures Inv(CreatePlayer(l, player).value)
  {
  }

  /** `updatePlayer` keeps the invariants. */
  lemma UpdatePlayerPreservesInvariants(l: Ledger, player: Option<Player>)
    requires Inv(l) && UpdatePlayer(l, player).Success?
    ensures Inv(UpdatePlayer(l, player).value)
  {
  }

  /** `deletePlayer` keeps the invariants and every balance non-negative. */
  lemma DeletePlayerPreservesInvariants(l: Ledger, player: Option<Player>)
    requires Inv(l) && DeletePlayer(l, player).Success?
    ensures Inv(DeletePlayer(l, player).value)
    ensures Solvent(l) ==> Solvent(DeletePlayer(l, player).value)
  {
  }

  /** `createStock` keeps the invariants: the new row gets a fresh key below the advanced
      identity counter, and a positive price. */
  lemma CreateStockPreservesInvariants(l: Ledger, stock: Option<Stock>)
    requires Inv(l) && CreateStock(l, stock).Success?
    ensures Inv(CreateStock(l, stock).value.0)
  {
  }

  /** `updateStock` keeps the invariants: the row keeps its key and gets a positive price. */
  lemma UpdateStockPreservesInvariants(l: Ledger, stock: Option<Stock>)
    requires Inv(l) && UpdateStock(l, stock).Success?
    ensures Inv(UpdateStock(l, stock).value)
  {
  }

  /** `deleteStock` keeps the invariants. */
  lemma DeleteStockPreservesInvariants(l: Ledger, stock: Option<Stock>)
    requires Inv(l) && DeleteStock(l, stock).Success?
    ensures Inv(DeleteStock(l, stock).value)
  {
  }

  /** `updatePlayer` accepts a negative balance, so solvency holds only through trading. */
  lemma UpdatePlayerCanOverdraw()
    ensures
      var l := Ledger(map["kim" := Player(Some("kim"), Some("pw"), Some(10.0))], map[], map[], 1);
      var r := UpdatePlayer(l, Some(Player(Some("kim"), None, Some(-5.0))));
      && Inv(l) && Solvent(l) && r.Success? && !Solvent(r.value)
  {
    var l := Ledger(map["kim" := Player(Some("kim"), Some("pw"), Some(10.0))], map[], map[], 1);
    assert !IsSpace("kim"[0]);
    var r := UpdatePlayer(l, Some(Player(Some("kim"), None, Some(-5.0))));
    assert r.value.players["kim"].money == Some(-5.0);
  }

  /** What `Inv` says about the one holding an order touches: if stored, it is a row for
      that pair with a quantity of at least 1. */
  ghost predicate PositiveRowAt(l: Ledger, key: HoldingKey) {
    key in l.holdings ==>
      && l.holdings[key] == PlayerStock(key.0, key.1, l.holdings[key].quantity)
      && l.holdings[key].quantity.Some? && l.holdings[key].quantity.value >= 1
  }

  /** Selling what was just bought restores the ledger exactly. */
  lemma BuyThenSellRestores(l: Ledger, session: Option<PlayerId>, order: Option<StockOrder>)
    requires Inv(l) && Buy(l, session, order).Success?
    ensures Sell(Buy(l, session, order).value, session, order) == Success(l)
  {
    var player, stock, qty := session.value, OrderStock(order), OrderQuantity(order);
    assert PositiveRowAt(l, (player, stock));
    SellAfterBuy(l, player, stock, qty);
  }

  /** The writes of a sell undo the writes of a buy of the same quantity. */
  lemma SellAfterBuy(l: Ledger, player: PlayerId, stock: StockId, qty: int)
    requires player in l.players && l.players[player].money.Some?
    requires stock in l.stocks && l.stocks[stock].price.Some?
    requires PositiveRowAt(l, (player, stock)) && qty > 0
    ensures (player, stock) in ApplyBuy(l, player, stock, qty).holdings
    ensures ApplySell(ApplyBuy(l, player, stock, qty), player, stock, qty) == l
  {
  }

  /** Buying back what was just sold restores the ledger exactly, provided the seller's
      balance was present and non-negative (otherwise the proceeds alone cannot pay). */
  lemma SellThenBuyRestores(l: Ledger, session: Option<PlayerId>, order: Option<StockOrder>)
    requires Inv(l) && Sell(l, session, order).Success?
    requires l.players[session.value].money.Some? && l.players[session.value].money.value >= 0.0
    ensures Buy(Sell(l, session, order).value, session, order) == Success(l)
  {
    var player, stock, qty := session.value, OrderStock(order), OrderQuantity(order);
    assert PositiveRowAt(l, (player, stock));
    BuyAfterSell(l, player, stock, qty);
  }

  /** The writes of a buy undo the writes of a sell of the same quantity, and the balance
      after the sell covers the buy. */
  lemma BuyAfterSell(l: Ledger, player: PlayerId, stock: StockId, qty: int)
    requires player in l.players && l.players[player].money.Some? && l.players[player].money.value >= 0.0
    requires stock in l.stocks && l.stocks[stock].price.Some?
    requires (player, stock) in l.holdings && PositiveRowAt(l, (player, stock))
    requires 0 < qty <= HeldQuantity(l, player, stock)
    ensures var l1 := ApplySell(l, player, stock, qty);
      l1.players[player].money.value >= Cost(l1, stock, qty)
    ensures ApplyBuy(ApplySell(l, player, stock, qty), player, stock, qty) == l
  {
    var key := (player, stock);
    var l1 := ApplySell(l, player, stock, qty);
    var l2 := ApplyBuy(l1, player, stock, qty);
    // Not needed for validity: the steps below shorten the solver's search.
    assert Cost(l1, stock, qty) == Cost(l, stock, qty);
    assert l2.players[player] == l.players[player];
    assert l2.players == l.players;
    assert l2.holdings == l.holdings by {
      assert l2.holdings[key] == l.holdings[key];
    }
  }

  /** Deleting a stock just created restores the stocks table; only the identity counter
      has moved on. */
  lemma CreateThenDeleteStock(l: Ledger, stock: Option<Stock>)
    requires Wf(l) && CreateStock(l, stock).Success?
    ensures
      var (l1, id) := CreateStock(l, stock).value;
      && GetStockById(l1, id) == Success(stock.value.(id := Some(id)))
      && DeleteStock(l1, Some(l1.stocks[id])) == Success(l.(nextStockId := l1.nextStockId))
  {
    var (l1, id) := CreateStock(l, stock).value;
    var l2 := DeleteStock(l1, Some(l1.stocks[id])).value;
    assert l2.stocks == l.stocks;
  }

  /** After `updateStock`, reading the id gives the new row; after `deleteStock`, the id is
      not found. */
  lemma UpdateOrDeleteThenGet(l: Ledger, stock: Option<Stock>)
    ensures UpdateStock(l, stock).Success? ==>
      GetStockById(UpdateStock(l, stock).value, stock.value.id.value) == Success(stock.value)
    ensures DeleteStock(l, stock).Success? ==>
      GetStockById(DeleteStock(l, stock).value, stock.value.id.value) == Failure(DataNotFound(Stocks))
  {
  }

  /** A newly created player can log in with the password it was created with, and
      deleting it restores the ledger. */
  lemma CreatePlayerRoundTrips(l: Ledger, player: Option<Player>)
    requires CreatePlayer(l, player).Success?
    ensures
      var l1, id := CreatePlayer(l, player).value, player.value.id.value;
      && LoginPlayer(l1, Some(PlayerSession(player.value.id, player.value.password))) == Success(id)
      && DeletePlayer(l1, player) == Success(l)
  {
    var l1 := CreatePlayer(l, player).value;
    var l2 := DeletePlayer(l1, player).value;
    assert l2.players == l.players;
  }

  /** After changing a password, logging in succeeds with the new password and fails
      with any other. */
  lemma UpdatedPasswordLogsIn(l: Ledger, player: Option<Player>, attempt: string)
    requires UpdatePlayer(l, player).Success? && !IsBlank(player.value.password)
    requires !IsBlank(Some(attempt))
    ensures
      var l1, id := UpdatePlayer(l, player).value, player.value.id;
      LoginPlayer(l1, Some(PlayerSession(id, Some(attempt)))) ==
        (if Some(attempt) == player.value.password then Success(id.value) else Failure(NotAuthenticated))
  {
  }

  /** Which side an order request is on. */
  datatype Side = BuySide | SellSide

  /** One order request: the session's player id, the side and the order body. */
  datatype Request = Request(session: Option<PlayerId>, side: Side, order: Option<StockOrder>)

  /** One request, as `buyPlayerStock` or `sellPlayerStock`. */
  function Execute(l: Ledger, req: Request): Result<Ledger, Error> {
    match req.side
    case BuySide => Buy(l, req.session, req.order)
    case SellSide => Sell(l, req.session, req.order)
  }

  /** Requests applied one after another, each seeing the ledger the previous ones left;
      a rejected request leaves the ledger as it was. */
  function Run(l: Ledger, reqs: seq<Request>): Ledger
    decreases |reqs|
  {
    if |reqs| == 0 then l
    else
      var r := Execute(l, reqs[0]);
      Run(if r.Success? then r.value else l, reqs[1..])
  }

  /** However orders of any players are serialised, the invariants hold after each, and
      no balance goes negative and no holding drops below 1. */
  lemma {:induction false} RunPreservesInvariants(l: Ledger, reqs: seq<Request>)
    requires Inv(l) && Solvent(l)
    ensures Inv(Run(l, reqs)) && Solvent(Run(l, reqs))
    decreases |reqs|
  {
    if |reqs| > 0 {
      var req := reqs[0];
      var r := Execute(l, req);
      if r.Success? {
        match req.side
        case BuySide => BuyPreservesInvariants(l, req.session, req.order);
        case SellSide => SellPreservesInvariants(l, req.session, req.order);
      }
      RunPreservesInvariants(if r.Success? then r.value else l, reqs[1..]);
    }
  }

  /** A player with 100 buys 3 of a stock priced 30, cannot then afford 1 more, cannot sell
      5, and selling the 3 restores the balance and removes the holding. */
  lemma TradingScenario()
    ensures
      var l := Ledger(map["kim" := Player(Some("kim"), Some("pw"), Some(100.0))],
                      map[1 := Stock(Some(1), Some("ACME"), Some(30.0))], map[], 2);
      var s := Some("kim");
      var b := Buy(l, s, Some(StockOrder(Some(1), Some(3))));
      && b.Success?
      && b.value.players["kim"].money == Some(10.0)
      && HeldQuantity(b.value, "kim", 1) == 3
      && Buy(b.value, s, Some(StockOrder(Some(1), Some(1)))) == Failure(InsufficientFunds)
      && Sell(b.value, s, Some(StockOrder(Some(1), Some(5)))) == Failure(InsufficientQuantity)
      && Sell(b.value, s, Some(StockOrder(Some(1), Some(3)))) == Success(l)
  {
    var l := Ledger(map["kim" := Player(Some("kim"), Some("pw"), Some(100.0))],
                    map[1 := Stock(Some(1), Some("ACME"), Some(30.0))], map[], 2);
    assert !IsSpace("kim"[0]);
    BuyThenSellRestores(l, Some("kim"), Some(StockOrder(Some(1), Some(3))));
  }
}
