# Stock ledger of the SKALA stock API, in Dafny

This project models the service layer of a small stock-trading API. Players hold cash
and positions. They buy and sell stocks at the stored price. Administrators create,
update and delete player and stock records.

The model is functional. A `Store.Ledger` holds three tables as maps:
- players, keyed by player id;
- stocks, keyed by generated stock id;
- holdings (`PlayerStock` rows), keyed by the pair (player id, stock id).

It also holds the database's identity counter for new stock ids. Every service call is
a pure function from a ledger and a request to a `Result`. A `Success` carries the new
ledger. A `Failure` carries the error code and no ledger, which models the transactional
rollback: a rejected call changes nothing.

Every nullable Java field of a request body or a table row is an `Option`, with two
exceptions (see "## Left out"): the `player` and `stock` references of a holding are plain
keys, and `StockOrder.playerId` is not modelled. The request bodies (`Player`, `Stock`,
`StockOrder`, `PlayerSession`) may themselves be null. The player id that the services
read from the login session is an explicit `session` parameter.

Modules:
- `Wrappers`: `Option` and `Result`.
- `Text`: Java's `String.trim()` and the `isBlank` check that both services define
  identically (`PlayerService.java:48-50`, `StockService.java:100-102`).
- `Entities`: the rows, the request bodies and the error codes.
- `Store`: the ledger, its invariants, the holding lookup and the frame predicates.
- `PlayerService` and `StockService`: one function per service operation.
- `LedgerProperties`: lemmas that relate several calls.

The ledger invariant `Inv` has these parts:
- every row is stored under its own key;
- the identity counter is at least 1, and every stock key lies between 1 and the counter
  (exclusive), so the counter is always a fresh id for `createStock`;
- every stored holding has quantity at least 1;
- every stored stock has a price above 0.

Every operation preserves `Inv`. `Solvent` (no negative balance) is preserved by buy,
sell, player deletion and all stock operations. It is not a global invariant, because
`createPlayer` and `updatePlayer` store any balance they are given.

The model follows the code as written, including where a stricter design might differ:
- `deletePlayer` removes only the player row. It does not cascade to the player's holdings.
- The checks run in the code's order: session, order fields, player, stock, then price
  and funds for a buy, or holding, quantity and price for a sell. A missing player and
  a missing stock both give `DATA_NOT_FOUND`, and the model records which table.
- A null stock price makes the cost computation throw a `NullPointerException`. The
  exception handler reports it as a system error. The model returns `SystemError` at
  the same point in the check sequence.

## Model

| member | source | states |
|---|---|---|
| Text.TrimStart | src/main/java/com/sk/skala/stockapi/service/PlayerService.java:48-50 | the result is a suffix of the input; every dropped character is at or below U+0020; the kept part does not start with one |
| Text.TrimEnd | src/main/java/com/sk/skala/stockapi/service/PlayerService.java:48-50 | the result is a prefix of the input; every dropped character is at or below U+0020; the kept part does not end with one |
| Text.Trim | src/main/java/com/sk/skala/stockapi/service/PlayerService.java:48-50 | the trimmed string has no trimmable character at either end; it is empty exactly when every character of the input is trimmable |
| Text.BlankIffAllSpace | src/main/java/com/sk/skala/stockapi/service/PlayerService.java:48-50 | a string is blank exactly when it is null or made only of characters at or below U+0020 |
| PlayerService.CreatePlayer | src/main/java/com/sk/skala/stockapi/service/PlayerService.java:103-114 | a null body, blank id or blank password gives InvalidParameter; an existing id gives DataDuplicated; otherwise the player is stored under its id, no other row changes, and the table gains exactly that key |
| PlayerService.LoginPlayer | src/main/java/com/sk/skala/stockapi/service/PlayerService.java:119-129 | a null body, blank id or blank password gives InvalidParameter; an unknown id gives DataNotFound; a password different from the stored one (including a null stored one) gives NotAuthenticated; otherwise it returns the session's player id |
| PlayerService.UpdatePlayer | src/main/java/com/sk/skala/stockapi/service/PlayerService.java:140-159 | a null body or blank id gives InvalidParameter; an unknown id gives DataNotFound; otherwise the balance changes only when one is supplied (any value, negative included) and the password only when a non-blank one is supplied; every other row is unchanged |
| PlayerService.DeletePlayer | src/main/java/com/sk/skala/stockapi/service/PlayerService.java:164-174 | a null body or blank id gives InvalidParameter; an unknown id gives DataNotFound; otherwise exactly that key leaves the players table and the holdings table is unchanged (no cascade) |
| PlayerService.Buy | src/main/java/com/sk/skala/stockapi/service/PlayerService.java:179-224 | each rejection has its own code, in the code's order: blank session gives SessionNotFound; a null order, stock id or quantity, or one at most 0, gives InvalidParameter; an unknown player or stock gives DataNotFound; a null price gives SystemError; a null balance or one below price times quantity gives InsufficientFunds; a success happens exactly when all checks pass, is the writes of ApplyBuy, and leaves a balance of at least 0 |
| PlayerService.ApplyBuy | src/main/java/com/sk/skala/stockapi/service/PlayerService.java:209-221 | the balance drops by exactly price times quantity; the holding becomes the old quantity (0 when the holding is absent or its quantity is null) plus the order quantity; an absent holding is created for the pair; no other player, stock or holding changes |
| PlayerService.Sell | src/main/java/com/sk/skala/stockapi/service/PlayerService.java:229-277 | the same session, order, player and stock rejections as a buy; a missing holding gives DataNotFound; a held quantity below the order gives InsufficientQuantity; a null price then gives SystemError; a success happens exactly when all checks pass and is the writes of ApplySell |
| PlayerService.ApplySell | src/main/java/com/sk/skala/stockapi/service/PlayerService.java:253-274 | the balance (a null one read as 0) rises by exactly price times quantity; the held quantity drops by the order quantity; the holding is removed exactly when it reaches 0, and otherwise is the same row with only its quantity changed; no other player, stock or holding changes; a non-negative balance stays non-negative at a non-negative price |
| StockService.GetStockById | src/main/java/com/sk/skala/stockapi/service/StockService.java:48-54 | returns the stored stock exactly when the id is present, and DataNotFound otherwise; the row returned carries that id |
| StockService.CreateStock | src/main/java/com/sk/skala/stockapi/service/StockService.java:57-71 | a null stock, blank name, or price that is null or at most 0 gives InvalidParameter; a name already stored gives DataDuplicated; otherwise one row is added under a fresh generated id, the existing stocks and all other tables are unchanged |
| StockService.UpdateStock | src/main/java/com/sk/skala/stockapi/service/StockService.java:73-85 | a null stock or id, a blank name, or a price that is null or at most 0 gives InvalidParameter; an unknown id gives DataNotFound; otherwise exactly that row is replaced and the key set stays the same; name uniqueness is not re-checked |
| StockService.DeleteStock | src/main/java/com/sk/skala/stockapi/service/StockService.java:88-98 | a null stock or id gives InvalidParameter; an unknown id gives DataNotFound; otherwise exactly that key leaves the stocks table and holdings are unchanged |
| LedgerProperties.BuyPreservesInvariants | src/main/java/com/sk/skala/stockapi/service/PlayerService.java:202-221 | a successful buy keeps every row under its key, every holding at quantity at least 1 and every price positive, and keeps all balances non-negative |
| LedgerProperties.ApplyBuyPreservesInvariants | src/main/java/com/sk/skala/stockapi/service/PlayerService.java:209-221 | the buy writes keep the invariants, and keep all balances non-negative when the balance covered the cost |
| LedgerProperties.SellPreservesInvariants | src/main/java/com/sk/skala/stockapi/service/PlayerService.java:253-274 | a successful sell keeps the invariants, never stores a holding of quantity 0, and keeps all balances non-negative because stored prices are positive |
| LedgerProperties.ApplySellPreservesInvariants | src/main/java/com/sk/skala/stockapi/service/PlayerService.java:258-274 | the sell writes keep the invariants and keep all balances non-negative |
| LedgerProperties.CreatePlayerPreservesInvariants | src/main/java/com/sk/skala/stockapi/service/PlayerService.java:103-114 | player creation keeps the ledger invariants |
| LedgerProperties.UpdatePlayerPreservesInvariants | src/main/java/com/sk/skala/stockapi/service/PlayerService.java:140-159 | player update keeps the ledger invariants |
| LedgerProperties.DeletePlayerPreservesInvariants | src/main/java/com/sk/skala/stockapi/service/PlayerService.java:164-174 | player deletion keeps the ledger invariants and solvency |
| LedgerProperties.CreateStockPreservesInvariants | src/main/java/com/sk/skala/stockapi/service/StockService.java:57-71 | stock creation keeps the invariants: the new row has a positive price and a fresh key below the advanced counter |
| LedgerProperties.UpdateStockPreservesInvariants | src/main/java/com/sk/skala/stockapi/service/StockService.java:73-85 | stock update keeps the invariants: the replaced row has a positive price and keeps its key |
| LedgerProperties.DeleteStockPreservesInvariants | src/main/java/com/sk/skala/stockapi/service/StockService.java:88-98 | stock deletion keeps the ledger invariants |
| LedgerProperties.UpdatePlayerCanOverdraw | src/main/java/com/sk/skala/stockapi/service/PlayerService.java:149-151 | a concrete solvent ledger that updatePlayer makes insolvent, so solvency is not a global invariant |
| LedgerProperties.BuyThenSellRestores | src/main/java/com/sk/skala/stockapi/service/PlayerService.java:179-277 | selling the quantity just bought gives back exactly the ledger before the buy |
| LedgerProperties.SellAfterBuy | src/main/java/com/sk/skala/stockapi/service/PlayerService.java:209-274 | the sell writes undo the buy writes for the same player, stock and quantity |
| LedgerProperties.SellThenBuyRestores | src/main/java/com/sk/skala/stockapi/service/PlayerService.java:179-277 | when the seller's balance was present and non-negative, buying back the quantity just sold gives back exactly the ledger before the sell |
| LedgerProperties.BuyAfterSell | src/main/java/com/sk/skala/stockapi/service/PlayerService.java:209-274 | the balance after a sell covers buying the same quantity back, and the buy writes undo the sell writes |
| LedgerProperties.CreateThenDeleteStock | src/main/java/com/sk/skala/stockapi/service/StockService.java:48-98 | a created stock is found by its new id with the given name and price, and deleting it restores the stocks table |
| LedgerProperties.UpdateOrDeleteThenGet | src/main/java/com/sk/skala/stockapi/service/StockService.java:48-98 | after an update the id reads back the new row; after a delete the id is not found |
| LedgerProperties.CreatePlayerRoundTrips | src/main/java/com/sk/skala/stockapi/service/PlayerService.java:103-174 | a created player logs in with its own password, and deleting it restores the ledger |
| LedgerProperties.UpdatedPasswordLogsIn | src/main/java/com/sk/skala/stockapi/service/PlayerService.java:119-159 | after a password change, login succeeds with the new password and fails with NotAuthenticated for any other non-blank one |
| LedgerProperties.RunPreservesInvariants | src/main/java/com/sk/skala/stockapi/service/PlayerService.java:179-277 | any serialised sequence of buy and sell requests, from any sessions, keeps the invariants and keeps every balance non-negative |
| LedgerProperties.TradingScenario | src/main/java/com/sk/skala/stockapi/service/PlayerService.java:179-277 | a balance of 100 buys 3 shares at 30 and keeps 10; one more share is unaffordable; selling 5 is refused; selling the 3 restores the starting ledger |

## Left out

- HTTP controllers, request validation annotations and `GlobalExceptionHandler`: outcomes are the `Error` codes of the model, not HTTP responses. The `@Min(1)` limits on `StockOrder` reappear as the service's own checks (`ValidOrder`).
- `getAllPlayers`, `getAllStocks` (Spring `Page` pagination) and `getPlayerById` with its DTO builders: read-only views and data carriers.
- `SessionHandler`: the JWT cookie that `loginPlayer` stores and the session lookup in buy and sell. `LoginPlayer` returns the authenticated id, and trading takes the session id as a parameter.
- Concurrency and `@Transactional` isolation: each call is one atomic transition, and `RunPreservesInvariants` covers any serial order of buy and sell requests.
- Floating point: money and prices are exact `real`s, so `Double` rounding in price times quantity and in the balance updates is not modelled.
- PlayerService.ApplyBuy: the quantity sum is an unbounded `int`, so the Java `Integer` overflow of `currentQty + qty` is not modelled.
- Foreign keys and other database constraints: deleting a player or a stock leaves their holdings in the model. A schema with foreign keys might refuse that deletion instead.
- StockService.CreateStock: an id present in the request body is ignored. The new row always gets the next generated id. In the source, `stockRepository.save` merges an entity whose id is non-null, so a body id that reached the service would overwrite that stored row, or insert under a fresh id when no row has it, instead of always adding a row.
- StockService.CreateStock: `findByStockName` is modelled as "some stored stock has this exact name". The repository is not part of this model. Such a query could also fail if two rows share a name, which `updateStock` allows. Database collation is not modelled either.
- StockService.GetStockById: a null id is not modelled. The id is taken as a present number.
- `StockOrder.playerId`: the controller requires it, but the services ignore it and trade as the session player, so the model omits it.
- The surrogate `id` column of `PlayerStock`: holdings are keyed by their (player, stock) pair.
- Null `player` or `stock` references in a `PlayerStock` row: the `@ManyToOne` columns are nullable in the entity, but every holding the services write names both, so the model's holdings always carry a player id and a stock id.
