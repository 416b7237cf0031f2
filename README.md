# Mines: a verified model of the game engine and the game server

This project models the core of a browser "Mines" game.
- **The board.** It has 25 cells, and each cell hides a diamond or a mine.
- **Starting a round.** The player stakes a bet and chooses how many mines the board hides.
- **Revealing cells.** Each diamond revealed multiplies the stake by a payout factor that grows with the risk left on the board.
- **Ending a round.** Revealing a mine loses the stake. Cashing out credits the stake times the accumulated multiplier.

The model has two modules:

- `Engine` (`engine.dfy`) models the game engine.
  - `CreateGrid` is a method over an `array<Cell>`. It is proved against the specification function `Placed`.
  - `Placed` is built on `PlaceMines`, which states the random placement loop as a function of the draws it consumes.
  - `CalculateMultiplier` is the per-reveal payout factor, computed as the house edge over the probability of a safe reveal.
  - `Accumulated` is the product of those factors over a round.
- `Server` (`server.dfy`) models the HTTP handlers over the in-memory `sessions` map.
  - The handlers are `/api/me`, `/api/start`, `/api/play` and `/api/cashout`.
  - `/api/start`, `/api/play` and `/api/cashout` are each a pure step function `StartStep`, `PlayStep` or `CashoutStep` from the sessions to `(sessions', reply)`.
  - `/api/me` only registers the player, which is the function `WithUser`, and then reads the balance.
  - The class `MinesServer` owns the `sessions` field. Its methods update that field in place. `Me` is proved equal to `WithUser`, and each other method is proved equal to its step function.
  - The invariant `ValidSessions` is preserved by every handler. It says that every balance is non-negative and, for every round in progress:
    - the board hides exactly `minesCount` mines;
    - no revealed cell is a mine;
    - `diamondsFound` counts the revealed diamonds;
    - `currentMultiplier` is exactly `Accumulated(minesCount, diamondsFound)`.

The random source is a parameter: `samples: seq<Index>` is the sequence of cells that `Math.random` would draw. Numbers are exact `real`s.

## Model

| member | source | states |
|---|---|---|
| Engine.CreateGrid | gameEngine.js:4-15 | Returns a 25-cell array whose contents and mine count are those of the placement specification `Placed` for the given draws; never places more than `minesCount` mines |
| Engine.AllDiamondsCounts | gameEngine.js:5 | The starting board has no mine and 25 diamonds |
| Engine.PlaceMines | gameEngine.js:7-13 | The placement loop keeps the board at 25 cells and the placed count never decreases nor passes the target |
| Engine.PlaceMinesCount | gameEngine.js:9-12 | Every draw that lands on a diamond turns exactly one cell into a mine, so mines on the board grow by exactly the number placed |
| Engine.PlaceMinesOnlyAdds | gameEngine.js:8-11 | A mine already on the board stays a mine; every new mine is a cell that was drawn |
| Engine.PlacementCounts | gameEngine.js:5-14 | The created board hides exactly `placed` mines and `25 - placed` diamonds, with `placed <= minesCount` |
| Engine.PlaceMinesCompletes | gameEngine.js:7-13 | When every still-diamond cell is among the remaining draws and the target fits the board, the loop reaches its target |
| Engine.CoveringDrawsSupply | gameEngine.js:7-13 | With `minesCount <= 25`, draws that hit every cell let the loop place all the requested mines |
| Engine.SuppliesOnlyUpToBoard | gameEngine.js:7-13 | The loop can only finish when `minesCount <= 25`; more mines than cells never terminate |
| Engine.CalculateMultiplier | gameEngine.js:18-31 | The factor is never negative, and it is 0 exactly when no safe cell remains (`25 - openedSpots - mines <= 0`) |
| Engine.FactorOdds | gameEngine.js:26-30 | When a safe cell remains, factor × safe cells = 0.97 × remaining cells, i.e. the factor is the house edge over the safe-reveal probability |
| Engine.FactorAboveOne | gameEngine.js:21-28 | With at least one mine and a safe cell left, the factor is at least 0.97·25/24, which exceeds 1 |
| Engine.FactorWithoutMines | gameEngine.js:21-28 | With no mine the factor is exactly the house edge 0.97 |
| Engine.FactorMonotone | gameEngine.js:21-28 | For a fixed mine count, the factor does not decrease as more cells are opened, and with at least one mine it strictly increases |
| Engine.Accumulated | server.js:78-81 | The accumulated multiplier is never negative, and it is positive while the mines and the revealed diamonds fit the board |
| Engine.NextMultiplier | server.js:78-79 | The handler's update, including the first-click special case, turns `Accumulated(m, d-1)` into `Accumulated(m, d)` |
| Engine.AccumulatedIncreasing | server.js:78-81 | With at least one mine, every reveal that leaves a safe cell strictly increases the multiplier |
| Engine.AccumulatedAtLeastOne | server.js:78-81 | With at least one mine, the multiplier of a playable round is at least 1.0 |
| Engine.AccumulatedClosedForm | server.js:78-81 | After n safe reveals with m mines, multiplier × (25−m)(24−m)…(25−m−n+1) = 0.97^n × 25·24·…·(25−n+1): the running product is 0.97^n over the probability of n safe reveals in a row |
| Engine.AccumulatedFallsWithoutMines | server.js:78-81 | With no mine, each reveal while cells remain lowers the multiplier |
| Engine.AccumulatedPastBoard | gameEngine.js:24 | Once mines plus reveals reach 25, the next factor is 0 and the multiplier becomes 0 |
| Engine.AccumulatedWithoutMines | server.js:78-81 | With no mine, the multiplier after n reveals is 0.97^n |
| Server.Hidden | server.js:38 | A fresh reveal mask has 25 cells, none revealed |
| Server.RevealedDiamonds | server.js:64-75 | The number of revealed diamonds never exceeds the diamonds on the board |
| Server.RevealDiamond | server.js:64-75 | Revealing a hidden diamond raises the revealed-diamond count by exactly one |
| Server.NoneRevealed | server.js:38-42 | With nothing revealed, the revealed-diamond count is 0, matching `diamondsFound: 0` |
| Server.DiamondsBound | server.js:75 | In a valid round, mines plus diamonds found never exceed 25 |
| Server.DiamondRoom | server.js:75-78 | When a hidden cell is a diamond there is room for one more diamond, and the next payout factor is positive |
| Server.WithUser | server.js:17 | An unknown user is registered with balance 1000.00; known users and all other entries are unchanged (the intended registration, see Findings) |
| Server.WithUserAsWritten | server.js:17 | Registration against a plain-object store: an id naming an inherited member (such as `constructor`) is never registered; any other unknown id gets 1000.00 and no round; existing entries are unchanged |
| Server.InheritedIdNotRegistered | server.js:17 | On an empty store the id `constructor` stays unregistered as written, while `WithUser` registers it with 1000.00 |
| Server.PlayStepAsWritten | server.js:53-88 | The play handler for any integer index, reading past the arrays as `undefined`: a refused reveal changes nothing, and no reveal adds or removes a user |
| Server.OnBoardAsWrittenAgrees | server.js:53-88 | On the 25 cells of the board, the handler as written and `PlayStep` give the same sessions and reply |
| Server.OffBoardRevealIsSafe | server.js:62-81 | As written, an index off the board in a valid round gives a safe reply and leaves board, mask and balance unchanged. The diamond count becomes d+1, which no longer matches the revealed diamonds, so the sessions become invalid. The multiplier becomes `Accumulated(m, d+1)` |
| Server.StartStep | server.js:22-50 | A refused start changes nothing beyond registering the user |
| Server.StartAccepted | server.js:28-30 | A start succeeds exactly when there is no round in progress, the bet is positive and the bet does not exceed the balance |
| Server.StartDebits | server.js:33-49 | An accepted start debits the bet, stores a fresh round (board from `createGrid`, nothing revealed, multiplier 1.0, no diamonds) and replies with the new balance and multiplier 1.0 |
| Server.StartPreservesValid | server.js:22-50 | Start keeps every session valid, given draws that place every mine whenever the guards let the board be drawn |
| Server.PlayStep | server.js:53-88 | A refused reveal changes nothing, no reveal adds or removes a user, and a safe reply is given only for a diamond cell of the board (the intended behaviour, see Findings) |
| Server.PlayAccepted | server.js:57-62 | A reveal is refused exactly when the user is unknown, has no round, or the cell is already revealed |
| Server.PlayMine | server.js:67-71 | Revealing a mine ends the round, keeps the balance (the stake is lost) and replies with the whole board |
| Server.PlayDiamond | server.js:64-87 | Revealing a diamond marks the cell, counts one more diamond, multiplies the multiplier by the positive factor for the diamonds found before, keeps the balance, replies with the multiplier and the stake times it, and leaves every other player unchanged |
| Server.PlayPreservesValid | server.js:53-88 | Play keeps every session valid |
| Server.BustEndsRound | server.js:70 | After a mine the sessions stay valid, the balance is unchanged, and every further reveal or cashout is refused until a new start |
| Server.SafeMultiplierAtLeastOne | server.js:78-86 | With at least one mine, every safe reveal replies with a multiplier of at least 1.0 |
| Server.CashoutStep | server.js:91-111 | A cashout is refused exactly when the user is unknown or has no round; a refused cashout changes nothing, and no user is added or removed |
| Server.CashoutCredits | server.js:98-110 | An accepted cashout credits the stake times the current multiplier, ends the round and replies with the amount, the new balance and the board |
| Server.CashoutPreservesValid | server.js:91-111 | Cashout keeps every session valid |
| Server.CashoutAtLeastStake | server.js:98 | With at least one mine, cashing out never pays less than the stake |
| Server.StartThenCashout | server.js:33-103 | Starting a round and cashing out at once restores the session exactly as before |
| Server.MinesServer.constructor | server.js:12 | The server starts with no sessions, which is valid |
| Server.MinesServer.Me | server.js:15-19 | Registers an unknown user with 1000.00 and returns the balance, keeping the sessions valid |
| Server.MinesServer.Start | server.js:22-50 | Updates the sessions and replies exactly as `StartStep`, keeping them valid |
| Server.MinesServer.Play | server.js:53-88 | Updates the sessions and replies exactly as `PlayStep`, keeping them valid |
| Server.MinesServer.Cashout | server.js:91-111 | Updates the sessions and replies exactly as `CashoutStep`, keeping them valid |

## Left out

- Express wiring is not modelled: routing, CORS, static file serving, JSON parsing, `res.status(400)`, the error texts and the listening port. Refusals are the `Error` values, and replies are the `*Reply` datatypes.
- `toFixed(2)` is not modelled. Replies carry the exact multiplier and win amount, not the two-decimal strings.
- `Math.random` is not modelled. The cells it would draw are the input `samples`.
- `Engine.CreateGrid` requires nothing. `Server.MinesServer.Start` requires `Supplies(minesCount, samples)` only when `StartProceeds` holds, that is, when every guard at server.js:28-30 passes and `createGrid` runs. `Supplies` means the draws given let the loop place every requested mine. It stands in for the source loop's termination, which depends on its random source. A start that a guard refuses never draws a board, so it has no such requirement. `SuppliesOnlyUpToBoard` shows that a request for more than 25 mines can never be supplied; the source hangs in that case.
- Input coercion is not modelled: `isNaN`, `parseFloat`, `parseInt`, and request fields of other types (a non-numeric or fractional `index`, a string bet). The bet is a `real`, `minesCount` a `nat`, and `index` is one of the 25 cells.
- An integer `index` outside 0..24 is not accepted by `Server.PlayStep`. In the source, such an index reads `undefined` from both arrays at server.js:62 and server.js:67. It therefore passes the guard and counts as a diamond, with no risk of a mine.
  - The handler as written, for any integer index, is `Server.PlayStepAsWritten`. `Server.OffBoardRevealIsSafe` shows what one such reveal does; see Findings.
  - The multiplier then moves to `Accumulated(m, d+1)`. It grows when `minesCount >= 1` and a diamond of the board is still hidden (`Engine.AccumulatedIncreasing`). With no mine it falls (`Engine.AccumulatedFallsWithoutMines`). Once mines plus the diamond count reach 25, it drops to 0 (`Engine.AccumulatedPastBoard`).
- Server.PlayStepAsWritten: its mask ignores off-board writes, so it accepts the same off-board index again within a round, where the source refuses it. server.js:64 stores `true` under any index it accepts: past the end by growing the array, below 0 as a plain property. So server.js:62 accepts each off-board index once per round and then refuses it. There are unboundedly many such indices, so the exploit still repeats. `Server.OffBoardRevealIsSafe` starts from a valid round, which has had no off-board reveal, so it describes the source exactly.
- IEEE-754 double arithmetic is modelled as exact real arithmetic. Rounding in `0.97 / probability`, in the multiplier product and in the balance updates is not captured.
- In-place mutation of the user and game objects is modelled by replacing the record in the map. Within one handler, the only other references are the local `user` and `game` variables, and the model replays their updates on the stored record. `Server.MinesServer.Play` sets `isGameOver` only on the game that a mine discards, as the source does. `GameOk` shows the flag is false for every stored round.
- The session store is modelled as a true map. The source uses a plain JavaScript object, so every id also sees the members inherited from `Object.prototype`, and this behaviour is lost from the handlers' model:
  - An id such as `constructor` or `toString` is never registered. `/api/me` then replies with an undefined balance.
  - With the id `__proto__`, `/api/start` passes every guard, because `undefined < bet` is false. It then writes `activeGame` onto `Object.prototype`.
  - From then on, every user without an own `activeGame` sees that round: their starts are refused, and their cashouts pay out from it.
  - Only the registration part is modelled, and only as written (`Server.WithUserAsWritten`); see Findings.
- The persistence models and the browser client are not part of this model, because the server handlers do not use them.

## Findings

| source | as written | input that shows it | evidently intended | confidence | as-written member | corrected member |
|---|---|---|---|---|---|---|
| server.js:17 | `!sessions[userId]` on a plain object `{}` sees ids inherited from `Object.prototype` as present (also at server.js:25) | user id `constructor` on an empty store: it is not registered, and `/api/me` replies with an undefined balance. `__proto__` lets `/api/start` store a round on `Object.prototype` that every user without an own `activeGame` then sees | every id not yet stored is registered with 1000.00 and no round | high, not executed | Server.InheritedIdNotRegistered | Server.WithUser |
| server.js:62 | `game.revealed[index]` and `game.grid[index] === 'mine'` (server.js:67) read `undefined` for an index outside the board, so neither refuses it | `index = 25` in a valid active round: it is accepted, counts as a diamond that no cell holds, and moves the multiplier to the next accumulated value without any risk. With at least one mine and a diamond still hidden, that value is higher. Each other off-board index repeats this once | only the 25 cells of the board can be revealed; a diamond is counted only for a diamond cell | high, not executed | Server.OffBoardRevealIsSafe | Server.PlayStep |
