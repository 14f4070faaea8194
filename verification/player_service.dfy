/** `PlayerService`: the player record operations and the buy and sell orders. The
    session's player id is an explicit parameter; a `Failure` carries no ledger, so a
    rejected call leaves the caller's ledger as it was. */
module PlayerService {
  import opened Wrappers
  import opened Text
  import opened Entities
  import opened Store

  /** A non-null player with a non-blank id and a non-blank password. */
  predicate HasCredentials(p: Option<Player>) {
    p.Some? && !IsBlank(p.value.id) && !IsBlank(p.value.password)
  }

  /** A non-null player with a non-blank id. */
  predicate HasId(p: Option<Player>) {
    p.Some? && !IsBlank(p.value.id)
  }

  /** `createPlayer`: stores the given player under its id. */
  function CreatePlayer(l: Ledger, player: Option<Player>): (r: Result<Ledger, Error>)
    ensures r == Failure(InvalidParameter) <==> !HasCredentials(player)
    ensures r == Failure(DataDuplicated) <==> HasCredentials(player) && player.value.id.value in l.players
    ensures r.Success? <==> HasCredentials(player) && player.value.id.value !in l.players
    ensures r.Success? ==>
      var id := player.value.id.value;
      && r.value.players.Keys == l.players.Keys + {id}
      && r.value.players[id] == player.value
      && (forall p :: p in l.players ==> r.value.players[p] == l.players[p])
      && r.value.stocks == l.stocks && r.value.holdings == l.holdings
      && r.value.nextStockId == l.nextStockId
  {
    if !HasCredentials(player) then Failure(InvalidParameter)
    else if player.value.id.value in l.players then Failure(DataDuplicated)
    else Success(l.(players := l.players[player.value.id.value := player.value]))
  }

  /** A non-null login request with a non-blank id and a non-blank password. */
  predicate SessionGiven(s: Option<PlayerSession>) {
    s.Some? && !IsBlank(s.value.playerId) && !IsBlank(s.value.password)
  }

  /** `loginPlayer`, up to the password check: the id of the authenticated player. */
  function LoginPlayer(l: Ledger, session: Option<PlayerSession>): (r: Result<PlayerId, Error>)
    ensures r == Failure(InvalidParameter) <==> !SessionGiven(session)
    ensures r == Failure(DataNotFound(Players)) <==>
      SessionGiven(session) && session.value.playerId.value !in l.players
    ensures r == Failure(NotAuthenticated) <==>
      && SessionGiven(session) && session.value.playerId.value in l.players
      && l.players[session.value.playerId.value].password != session.value.password
    ensures r.Success? <==>
      && SessionGiven(session) && session.value.playerId.value in l.players
      && l.players[session.value.playerId.value].password == session.value.password
    ensures r.Success? ==> r.value == session.value.playerId.value
  {
    if !SessionGiven(session) then Failure(InvalidParameter)
    else
      var id := session.value.playerId.value;
      if id !in l.players then Failure(DataNotFound(Players))
      else if Some(session.value.password.value) != l.players[id].password then Failure(NotAuthenticated)
      else Success(id)
  }

  /** `updatePlayer`: overwrites the stored balance when one is given and the stored
      password when a non-blank one is given. */
  function UpdatePlayer(l: Ledger, player: Option<Player>): (r: Result<Ledger, Error>)
    ensures r == Failure(InvalidParameter) <==> !HasId(player)
    ensures r == Failure(DataNotFound(Players)) <==> HasId(player) && player.value.id.value !in l.players
    ensures r.Success? <==> HasId(player) && player.value.id.value in l.players
    ensures r.Success? ==>
      && OtherPlayersUnchanged(l, r.value, player.value.id.value)
      && r.value.stocks == l.stocks && r.value.holdings == l.holdings
      && r.value.nextStockId == l.nextStockId
    ensures r.Success? ==>
      var id := player.value.id.value;
      var given, before, after := player.value, l.players[id], r.value.players[id];
      && after.id == before.id
      && after.money == (if given.money.Some? then given.money else before.money)
      && after.password == (if IsBlank(given.password) then before.password else given.password)
  {
    if !HasId(player) then Failure(InvalidParameter)
    else
      var id := player.value.id.value;
      if id !in l.players then Failure(DataNotFound(Players))
      else
        var target := l.players[id];
        var money := if player.value.money.Some? then player.value.money else target.money;
        var password := if IsBlank(player.value.password) then target.password else player.value.password;
        Success(l.(players := l.players[id := target.(money := money, password := password)]))
  }

  /** `deletePlayer`: removes the player row and nothing else; the player's holdings stay. */
  function DeletePlayer(l: Ledger, player: Option<Player>): (r: Result<Ledger, Error>)
    ensures r == Failure(InvalidParameter) <==> !HasId(player)
    ensures r == Failure(DataNotFound(Players)) <==> HasId(player) && player.value.id.value !in l.players
    ensures r.Success? <==> HasId(player) && player.value.id.value in l.players
    ensures r.Success? ==>
      var id := player.value.id.value;
      && r.value.players.Keys == l.players.Keys - {id}
      && (forall p :: p in r.value.players ==> r.value.players[p] == l.players[p])
      && r.value.stocks == l.stocks && r.value.holdings == l.holdings
      && r.value.nextStockId == l.nextStockId
  {
    if !HasId(player) then Failure(InvalidParameter)
    else
      var id := player.value.id.value;
      if id !in l.players then Failure(DataNotFound(Players))
      else Success(l.(players := l.players - {id}))
  }

  /** The session and order checks that open buy and sell. */
  predicate Accepted(session: Option<PlayerId>, order: Option<StockOrder>) {
    !IsBlank(session) && ValidOrder(order)
  }

  function OrderStock(order: Option<StockOrder>): StockId
    requires ValidOrder(order)
  {
    order.value.stockId.value
  }

  function OrderQuantity(order: Option<StockOrder>): int
    requires ValidOrder(order)
  {
    order.value.quantity.value
  }

  /** The session player and the ordered stock both exist. */
  predicate Resolved(l: Ledger, session: Option<PlayerId>, order: Option<StockOrder>) {
    Accepted(session, order) && session.value in l.players && OrderStock(order) in l.stocks
  }

  /** Price times quantity, at the price stored now. */
  function Cost(l: Ledger, stock: StockId, quantity: int): real
    requires stock in l.stocks && l.stocks[stock].price.Some?
  {
    l.stocks[stock].price.value * quantity as real
  }

  /** `buyPlayerStock`: debits the cost and adds the quantity to the (player, stock)
      holding, creating it when absent. The conditions below are disjoint and cover every
      input, so each outcome happens exactly when its condition holds. */
  function Buy(l: Ledger, session: Option<PlayerId>, order: Option<StockOrder>): (r: Result<Ledger, Error>)
    ensures IsBlank(session) ==> r == Failure(SessionNotFound)
    ensures !IsBlank(session) && !ValidOrder(order) ==> r == Failure(InvalidParameter)
    ensures Accepted(session, order) && session.value !in l.players ==> r == Failure(DataNotFound(Players))
    ensures Accepted(session, order) && session.value in l.players && OrderStock(order) !in l.stocks ==>
      r == Failure(DataNotFound(Stocks))
    ensures Resolved(l, session, order) && l.stocks[OrderStock(order)].price.None? ==> r == Failure(SystemError)
    ensures Resolved(l, session, order) && l.stocks[OrderStock(order)].price.Some? ==>
      var money, cost := l.players[session.value].money, Cost(l, OrderStock(order), OrderQuantity(order));
      (money.None? || money.value < cost ==> r == Failure(InsufficientFunds))
      && (money.Some? && cost <= money.value ==>
            && r == Success(ApplyBuy(l, session.value, OrderStock(order), OrderQuantity(order)))
            && r.value.players[session.value].money.value >= 0.0)
  {
    if IsBlank(session) then Failure(SessionNotFound)
    else if !ValidOrder(order) then Failure(InvalidParameter)
    else
      var player, stock, qty := session.value, OrderStock(order), OrderQuantity(order);
      if player !in l.players then Failure(DataNotFound(Players))
      else if stock !in l.stocks then Failure(DataNotFound(Stocks))
      else if l.stocks[stock].price.None? then Failure(SystemError)
      else
        var cost := Cost(l, stock, qty);
        var p := l.players[player];
        if p.money.None? || p.money.value < cost then Failure(InsufficientFunds)
        else Success(ApplyBuy(l, player, stock, qty))
  }

  /** The writes of a buy that passed its checks: the debited player and the holding with
      the quantity added, created with quantity 0 first when absent. */
  function ApplyBuy(l: Ledger, player: PlayerId, stock: StockId, qty: int): (r: Ledger)
    requires player in l.players && l.players[player].money.Some?
    requires stock in l.stocks && l.stocks[stock].price.Some?
    ensures player in r.players
    ensures r.players[player] == l.players[player].(money := Some(l.players[player].money.value - Cost(l, stock, qty)))
    ensures (player, stock) in r.holdings
    ensures r.holdings[(player, stock)].quantity == Some(HeldQuantity(l, player, stock) + qty)
    ensures (player, stock) !in l.holdings ==> r.holdings[(player, stock)] == PlayerStock(player, stock, Some(qty))
    ensures (player, stock) in l.holdings ==>
      r.holdings[(player, stock)] == l.holdings[(player, stock)].(quantity := Some(HeldQuantity(l, player, stock) + qty))
    ensures OnlyTouches(l, r, player, (player, stock))
  {
    var p := l.players[player];
    var key := (player, stock);
    var ps := if key in l.holdings then l.holdings[key] else PlayerStock(player, stock, Some(0));
    var current := ps.quantity.GetOr(0);
    l.(players := l.players[player := p.(money := Some(p.money.value - Cost(l, stock, qty)))],
       holdings := l.holdings[key := ps.(quantity := Some(current + qty))])
  }

  /** `sellPlayerStock`: credits the proceeds and takes the quantity off the (player, stock)
      holding, deleting it when nothing is left. The conditions below are disjoint and cover
      every input, so each outcome happens exactly when its condition holds. */
  function Sell(l: Ledger, session: Option<PlayerId>, order: Option<StockOrder>): (r: Result<Ledger, Error>)
    ensures IsBlank(session) ==> r == Failure(SessionNotFound)
    ensures !IsBlank(session) && !ValidOrder(order) ==> r == Failure(InvalidParameter)
    ensures Accepted(session, order) && session.value !in l.players ==> r == Failure(DataNotFound(Players))
    ensures Accepted(session, order) && session.value in l.players && OrderStock(order) !in l.stocks ==>
      r == Failure(DataNotFound(Stocks))
    ensures Resolved(l, session, order) && (session.value, OrderStock(order)) !in l.holdings ==>
      r == Failure(DataNotFound(PlayerStocks))
    ensures Resolved(l, session, order) && (session.value, OrderStock(order)) in l.holdings ==>
      var held, qty := HeldQuantity(l, session.value, OrderStock(order)), OrderQuantity(order);
      && (held < qty ==> r == Failure(InsufficientQuantity))
      && (held >= qty && l.stocks[OrderStock(order)].price.None? ==> r == Failure(SystemError))
      && (held >= qty && l.stocks[OrderStock(order)].price.Some? ==>
            r == Success(ApplySell(l, session.value, OrderStock(order), qty)))
  {
    if IsBlank(session) then Failure(SessionNotFound)
    else if !ValidOrder(order) then Failure(InvalidParameter)
    else
      var player, stock, qty := session.value, OrderStock(order), OrderQuantity(order);
      if player !in l.players then Failure(DataNotFound(Players))
      else if stock !in l.stocks then Failure(DataNotFound(Stocks))
      else
        var key := (player, stock);
        if key !in l.holdings then Failure(DataNotFound(PlayerStocks))
        else
          var ps := l.holdings[key];
          var current := ps.quantity.GetOr(0);
          if current < qty then Failure(InsufficientQuantity)
          else if l.stocks[stock].price.None? then Failure(SystemError)
          else Success(ApplySell(l, player, stock, qty))
  }

  /** The writes of a sell that passed its checks: the credited player (a null balance
      counting as 0) and the holding with the quantity taken off, deleted at 0. */
  function ApplySell(l: Ledger, player: PlayerId, stock: StockId, qty: int): (r: Ledger)
    requires player in l.players && (player, stock) in l.holdings
    requires stock in l.stocks && l.stocks[stock].price.Some?
    ensures player in r.players
    ensures r.players[player] == l.players[player].(money := Some(l.players[player].money.GetOr(0.0) + Cost(l, stock, qty)))
    ensures HeldQuantity(r, player, stock) == HeldQuantity(l, player, stock) - qty
    ensures (player, stock) in r.holdings <==> HeldQuantity(l, player, stock) != qty
    ensures (player, stock) in r.holdings ==>
      r.holdings[(player, stock)] == l.holdings[(player, stock)].(quantity := Some(HeldQuantity(l, player, stock) - qty))
    ensures OnlyTouches(l, r, player, (player, stock))
    ensures l.players[player].money.GetOr(0.0) >= 0.0 && l.stocks[stock].price.value >= 0.0 && qty >= 0 ==>
      r.players[player].money.value >= 0.0
  {
    var p := l.players[player];
    var key := (player, stock);
    var ps := l.holdings[key];
    var left := ps.quantity.GetOr(0) - qty;
    var holdings := if left == 0 then l.holdings - {key} else l.holdings[key := ps.(quantity := Some(left))];
    l.(players := l.players[player := p.(money := Some(p.money.GetOr(0.0) + Cost(l, stock, qty)))],
       holdings := holdings)
  }
}
