/** The ledger the services read and write: the three repositories as maps, and the
    invariants the operations keep. */
module Store {
  import opened Wrappers
  import opened Entities

  type HoldingKey = (PlayerId, StockId)

  /** The players, stocks and holdings tables. `nextStockId` is the database's
      identity counter for new stock rows. */
  datatype Ledger = Ledger(
    players: map<PlayerId, Player>,
    stocks: map<StockId, Stock>,
    holdings: map<HoldingKey, PlayerStock>,
    nextStockId: StockId)

  /** Each row sits under its own key; stock keys are below the identity counter, which
      starts at 1. */
  ghost predicate Wf(l: Ledger) {
    && l.nextStockId >= 1
    && (forall p :: p in l.players ==> l.players[p].id == Some(p))
    && (forall s :: s in l.stocks ==> l.stocks[s].id == Some(s) && 1 <= s < l.nextStockId)
    && (forall k :: k in l.holdings ==> l.holdings[k].player == k.0 && l.holdings[k].stock == k.1)
  }

  /** Every stored holding has a quantity of at least 1: none is null, zero or negative. */
  ghost predicate HoldingsPositive(l: Ledger) {
    forall k :: k in l.holdings ==> l.holdings[k].quantity.Some? && l.holdings[k].quantity.value >= 1
  }

  /** Every stored stock has a price above zero. */
  ghost predicate PricesPositive(l: Ledger) {
    forall s :: s in l.stocks ==> l.stocks[s].price.Some? && l.stocks[s].price.value > 0.0
  }

  /** No player's balance is negative (a null balance is allowed). */
  ghost predicate Solvent(l: Ledger) {
    forall p :: p in l.players ==> l.players[p].money.GetOr(0.0) >= 0.0
  }

  /** The invariants every operation preserves. */
  ghost predicate Inv(l: Ledger) {
    Wf(l) && HoldingsPositive(l) && PricesPositive(l)
  }

  /** The quantity the (player, stock) holding reports, with an absent holding or a null
      quantity read as 0. */
  function HeldQuantity(l: Ledger, player: PlayerId, stock: StockId): int {
    if (player, stock) in l.holdings then l.holdings[(player, stock)].quantity.GetOr(0) else 0
  }

  /** The set of players is the same and every row except that of `player` is unchanged. */
  ghost predicate OtherPlayersUnchanged(l: Ledger, l2: Ledger, player: PlayerId) {
    && l2.players.Keys == l.players.Keys
    && (forall p :: p in l.players && p != player ==> l2.players[p] == l.players[p])
  }

  /** Every holding other than `key` is present in `l2` exactly when it is in `l`, with the
      same row. */
  ghost predicate OtherHoldingsUnchanged(l: Ledger, l2: Ledger, key: HoldingKey) {
    && (forall k :: k != key ==> (k in l2.holdings <==> k in l.holdings))
    && (forall k :: k in l.holdings && k != key ==> l2.holdings[k] == l.holdings[k])
  }

  /** `l2` differs from `l` at most in the row of `player` and in the holding `key`. */
  ghost predicate OnlyTouches(l: Ledger, l2: Ledger, player: PlayerId, key: HoldingKey) {
    && l2.stocks == l.stocks
    && l2.nextStockId == l.nextStockId
    && OtherPlayersUnchanged(l, l2, player)
    && OtherHoldingsUnchanged(l, l2, key)
  }
}
