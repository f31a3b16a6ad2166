# torpedogame: a verified model of the game logic

torpedogame is a two-player battleship game for the browser. The players
connect peer to peer and exchange JSON messages. All of its game logic lives
in `game.ts`. This project models that logic in Dafny, with the DOM, jQuery and
PeerJS parts removed, and proves properties of the model.

The modules follow the structure of the game:

- **Cells** (`cells.dfy`): grid positions, the per-cell state (`hasHit`, `shipIndex`),
  and the `"row,column"` location strings of `Cell.cellLocation` and
  `Cell.parseCellLocation`. They round-trip, so the encoding is injective.
- **Ships** (`ships.dfy`): ship geometry (`getCellsCovered`, `flipShip`), plus the `Ship`
  class whose fields the game updates in place.
- **Fleets** (`fleets.dfy`): the verdict of `boardIsValid`. It holds exactly when no two ships
  share a cell and every ship lies on the board.
- **DuplicateScan** (`dupscan.dfy`): the game checks for duplicates by sorting the location
  strings and comparing neighbours, and checks the range by parsing each string back. On
  any sorted permutation of the encoded cells, both checks agree with the pair-level
  predicates that Fleets uses.
- **BoardModel** (`boardmodel.dfy`): the own board as a value. It holds the 10 x 10 grid and
  the fleet, and models:
  - the commit done by `boardIsValid` and `updateCellData`;
  - shot resolution (`bombCell`);
  - `randomize`, with its random draws given as a parameter;
  - `EnemyBoard.updateBoard`, as it acts on the opponent view.

  Its damage invariant, `Consistent`, says that every ship's hit counter equals the number
  of fired-upon cells stamped with its index, and that no ship carries more cells than its
  size.
- **Boards** (`boards.dfy`): the `MyBoard` and `EnemyBoard` objects:
  - the own grid is an `array2<Cell>` updated in place;
  - the ships are `Ship` objects;
  - every public `MyBoard` method (the constructor, `Reposition`, `FlipAt`, `BoardIsValid`,
    `Randomize`, `BombCell`) is proved to implement its BoardModel function and to keep
    `Valid()`;
  - the loop steps of `boardIsValid`, `updateCellData` and `randomize` (`CollectCells`,
    `ClearCells`, `StampFleet`, `StampShip`, `PlaceRound`) are specified by their own
    postconditions; in the middle of a commit the damage invariant does not hold;
  - `EnemyBoard` has no invariant of its own; `UpdateBoard` is specified by `Reveal`.
- **Messages** (`messages.dfy`): the four protocol messages, and what can arrive on the
  connection.
- **Protocol** (`protocol.dfy`): one peer's session as a value. The session holds:
  - the game state (`Game.gameState`);
  - both boards;
  - the two `playerTurn` flags;
  - the status text last shown;
  - an outbox of everything sent.

  Each `Game` method, each `onEvent` handler and `handleMessage` is a function here. The
  lemmas state the transitions and the session invariant.
- **Games** (`games.dfy`): the `Game` object. Each method is proved equal to its Protocol
  function on the objects' values.
- **Peers** (`peers.dfy`): two sessions exchanging messages. It proves:
  - the opening handshake;
  - that the two players deadlock when both declare readiness before hearing from the other;
  - an exchange of fire;
  - that a shot at a cell already hit gets no answer;
  - that a player may fire again before a reply arrives.

Sending a message appends it to the session's outbox. Receiving is a call of
`HandleMessage` with the delivered data.

Where the code and the intended behaviour disagree, the model follows the code:

- **A finished game can restart.** A finished game is meant to be final. But
  `handleMessage` answers `passToken` with `getToken` in every state (game.ts:542-545), so a
  passToken received after the end starts a new turn. `Protocol.FinishedIsFinal` states
  exactly this: passToken is the only way out of `finished`.
- **game.ts:427 assigns instead of comparing.** The test `this.state = Game.gameState.enemyReady`
  is an assignment, and its value is truthy. `readyToStartGame` is only ever called in
  `begin` or `enemyReady` (game.ts:376-381), so after the `begin` test the state is
  `enemyReady` whether the code assigns or compares. The model writes the comparison, and
  `Protocol.Announce` and `Games.Game.Announce` require one of those two states.

## Model

| member | source | states |
|---|---|---|
| Cells.ParseIntOfIntToString | game.ts:17-22 | reading back the decimal form of any integer gives that integer |
| Cells.ParseCellLocationRoundTrip | game.ts:15-23 | parseCellLocation recovers every position from its cellLocation string |
| Cells.CellLocationInjective | game.ts:21-23 | two positions have the same location string exactly when they are equal |
| Ships.Covered | game.ts:67-80 | the covered list has exactly max(size, 0) cells (where they lie: Ships.CoveredShape) |
| Ships.Flip | game.ts:53-65 | a flip keeps the size and toggles the orientation |
| Ships.Ship.IsSunk | game.ts:82-84 | a ship is sunk exactly when its hit counter equals its size |
| Ships.CoveredShape | game.ts:67-80 | the covered list has exactly max(size, 0) cells, the i-th being (row+i, column) if vertical and (row, column+i) otherwise |
| Ships.CoveredDistinct | game.ts:67-80 | a ship never lists the same cell twice |
| Ships.CoveredMembership | game.ts:67-80 | a cell is covered exactly when it lies on the ship's line within size steps of the origin |
| Ships.OnBoardIff | game.ts:143-146 | a ship is on the board exactly when its origin is in range and its far end does not pass row or column 9 |
| Ships.FlipSpec | game.ts:53-65 | a flip toggles the orientation and keeps the size and the short-axis coordinate; the new long-axis origin is kept when the ship fits and otherwise moved so that the far end is on 9 |
| Ships.FlipStaysOnBoard | game.ts:53-65 | after a flip, a ship whose origin is on the board and whose size is at most 10 lies entirely on the board |
| Ships.FlipTwice | game.ts:53-65 | flipping an on-board ship twice restores it exactly when it also fits along the other axis |
| Ships.Ship.constructor | game.ts:26-35 | a new ship is at (0, 0), vertical, with 0 hits and the given size |
| Ships.Ship.UpdatePosition | game.ts:37-42 | sets row, column and orientation; the hit counter is unchanged |
| Ships.Ship.FlipShip | game.ts:53-65 | the new placement is Flip of the old one; the hit counter is unchanged |
| Ships.Ship.GetCellsCovered | game.ts:67-80 | the stepping loop returns exactly the covered cells of the current placement |
| Fleets.InAllCells | game.ts:133-136 | a cell is in the concatenated list exactly when some ship covers it |
| Fleets.FleetIsValidIff | game.ts:130-153 | boardIsValid's tests pass exactly when the ships are pairwise disjoint and every ship is on the board |
| DuplicateScan.SortedScan | game.ts:137-140 | in a sorted list, two equal neighbours exist exactly when some entry is repeated |
| DuplicateScan.PermutationKeepsDuplicate | game.ts:137 | sorting (any reordering) neither creates nor removes repeated entries |
| DuplicateScan.EncodeKeepsDuplicate | game.ts:72 | rendering cells as location strings neither creates nor removes repeated entries |
| DuplicateScan.ParsedOutOfRangeOfPermutation | game.ts:143-146 | on a reordering of the encoded cells, the parse-and-range test finds a bad entry exactly when some cell is off the board |
| DuplicateScan.SourceChecksAgree | game.ts:133-146 | on the sorted location strings, the duplicate scan and the range scan give the same answers as the tests on the cells themselves |
| Messages.TagIdentifies | game.ts:531 | the four messages carry four different `type` tags, so the dispatch on the tag is a dispatch on the message kind |
| BoardModel.Validate | game.ts:130-171 | the commit keeps every placement and the fleet length, succeeds only on a fleet that passes both tests, and on failure leaves the board unchanged |
| BoardModel.Bomb | game.ts:244-279 | after a shot the targeted cell is hit, stamps stay in range, the fleet keeps its length, and nothing is reported exactly when the cell had been hit before |
| BoardModel.Randomize | game.ts:120-128 | randomize keeps the fleet length, and when it succeeds the placement it leaves passes boardIsValid |
| BoardModel.Reveal | game.ts:321-337 | updateBoard throws exactly for a cell off the grid; otherwise it only appends, and appends one ship exactly when the response carries one |
| BoardModel.ValidateCommits | game.ts:150-171 | a successful commit leaves a board whose stamps record the placements, and such a board passes boardIsValid again |
| BoardModel.BombKeepsCommitted | game.ts:244-279 | a shot moves no ship and restamps no cell, so the stamps still record the placements |
| BoardModel.CommittedShipAt | game.ts:162-171 | on a committed board a cell records ship i exactly when ship i covers it, and records some ship exactly when some ship covers it |
| BoardModel.InitialBoard | game.ts:93-108 | a fresh board has a 10 x 10 grid and one ship per configured size |
| BoardModel.StampRange | game.ts:162-171 | after stamping k ships a cell holds -1 or the index of an earlier ship that covers it |
| BoardModel.StampOwner | game.ts:162-171 | with disjoint ships, after k ships a cell holds i < k exactly when ship i covers it |
| BoardModel.StampCorrect | game.ts:162-171 | with disjoint ships, a stamped cell holds i exactly when ship i covers it, and -1 exactly when no ship does |
| BoardModel.StampSetOfValid | game.ts:155-171 | after a commit, the cells carrying index i are exactly the cells of ship i, and there are size of them |
| BoardModel.ValidateSpec | game.ts:130-171 | boardIsValid succeeds exactly for disjoint on-board fleets; on failure nothing changes; on success no cell is hit, every counter is 0, the placements are kept, and each cell carries its covering ship's index or -1 |
| BoardModel.CommitSpec | game.ts:155-171 | the grid and fleet that updateCellData's loops leave behind are the committed board and keep the damage invariant |
| BoardModel.EmptyGridConsistent | game.ts:93-108 | a board of untouched cells with undamaged ships of non-negative size satisfies the damage invariant |
| BoardModel.ValidateConsistent | game.ts:155-171 | a commit leaves a board satisfying the damage invariant |
| BoardModel.MarkHit | game.ts:250 | marking a fresh cell hit adds exactly that cell to its ship's hit set and changes no other hit set and no stamp set |
| BoardModel.HitsBounded | game.ts:82-84 | under the damage invariant every hit counter lies between 0 and the ship's size |
| BoardModel.BombConsistent | game.ts:244-279 | bombCell keeps the damage invariant |
| BoardModel.BombSpec | game.ts:244-279 | a shot at a hit cell changes nothing and reports nothing; a fresh cell becomes hit; an empty cell reports playerMissed with hit false; otherwise only the owning ship gains a hit, the event is never playerMissed, the response carries the ship exactly when it is now sunk, and the event is hit while the ship floats, shipSunk when it sinks with another ship afloat, and allSunk exactly when every ship is sunk |
| BoardModel.BombIdempotent | game.ts:247-250 | firing twice at a cell has the effect of firing once, and the second shot reports nothing |
| BoardModel.Move | game.ts:37-42 | moving ship i changes its placement only and leaves the grid and the other ships alone |
| BoardModel.MoveConsistent | game.ts:191-198 | moving a ship (drop or flip) keeps the damage invariant |
| BoardModel.PlaceAll | game.ts:123-126 | a round of draws changes only placements: grid and fleet length are kept |
| BoardModel.PlaceAllConsistent | game.ts:123-126 | a round of draws keeps the damage invariant |
| BoardModel.PlaceAllTwice | game.ts:122-127 | a later round replaces an earlier one entirely |
| BoardModel.RandomizeStep | game.ts:120-128 | a rejected round leaves the ships where it put them, and the loop goes on from there with the remaining rounds; a later round overrides it entirely |
| BoardModel.RandomizeValidIff | game.ts:120-128 | randomize succeeds exactly when some round of draws gives a valid placement |
| BoardModel.RandomizeFirstValid | game.ts:120-128 | a successful randomize commits the first valid round, and every earlier round was rejected |
| BoardModel.RandomizeFailKeeps | game.ts:120-128 | when the draws run out, no cell and no damage counter has changed |
| Boards.MyBoard.constructor | game.ts:182-229 | a new own board is the initial board (untouched cells, ship i of size sizes[i] at (i, 0), horizontal) and satisfies the invariant |
| Boards.MyBoard.Reposition | game.ts:191-198 | a drop moves ship i to the new origin with its orientation kept, changes nothing else and keeps the invariant |
| Boards.MyBoard.FlipAt | game.ts:217-222 | a click flips ship i, changes nothing else and keeps the invariant |
| Boards.MyBoard.AllShipsSunk | game.ts:290-294 | true exactly when every ship of the fleet is sunk |
| Boards.MyBoard.BoardIsValid | game.ts:130-153 | returns and leaves behind exactly what Validate gives for the old board, and keeps the invariant |
| Boards.MyBoard.CollectCells | game.ts:133-136 | the concatenation loop returns every ship's covered cells, ship after ship |
| Boards.MyBoard.UpdateCellData | game.ts:155-174 | on a valid fleet, the board afterwards is the committed board |
| Boards.MyBoard.ClearCells | game.ts:156-160 | every one of the 100 cells becomes untouched |
| Boards.MyBoard.StampFleet | game.ts:162-171 | every counter is 0, the placements are kept, and every cell holds the stamp of the whole fleet in order |
| Boards.MyBoard.StampShip | game.ts:165-170 | the covered cells of ship index get that index and every other cell keeps its stamp |
| Boards.MyBoard.Randomize | game.ts:120-128 | the result and new board are exactly those of randomize on the given draws |
| Boards.MyBoard.PlaceRound | game.ts:123-126 | ship j moves to draw j, keeping size and counter, and the grid is unchanged |
| Boards.MyBoard.BombCell | game.ts:244-279 | the new board and the reported event with its response are exactly Bomb of the old board, and the invariant is kept |
| Boards.EnemyBoard.constructor | game.ts:297-303 | the opponent view starts with no ships and the turn flag down |
| Boards.EnemyBoard.UpdateBoard | game.ts:321-337 | a cell outside the grid throws and changes nothing; otherwise a ship in the response is appended as a new undamaged ship object, and nothing else changes |
| Protocol.StartInv | game.ts:364-371 | a new session on a consistent board satisfies the session invariant |
| Protocol.ReadyToStartGameSpec | game.ts:419-435 | an invalid placement only changes the status; a valid one commits the board (its stamps then record the placements) and sends readyToPlay, then begin waits in iAmReady and enemyReady also sends passToken and moves to enemyTurn; the invariant is kept |
| Protocol.ClickInv | game.ts:306-319 | a click on the enemy board keeps the session invariant |
| Protocol.ClickFiresOnlyInMyTurn | game.ts:306-319 | a click sends bombCell for the clicked cell exactly in myTurn, and then changes nothing else; outside myTurn it never sends one |
| Protocol.MessageInv | game.ts:528-580 | handling any delivered data keeps the session invariant |
| Protocol.RaisedIff | game.ts:546-554 | handleMessage throws exactly on a bombCell in enemyTurn or a bombResponse whose cell is off the grid, and then nothing has changed |
| Protocol.UnknownDropped | game.ts:530-531 | data without a type, and unknown types, change nothing |
| Protocol.ReadyToPlayTransition | game.ts:532-541 | readyToPlay moves begin to enemyReady, keeps every other state, and sends nothing |
| Protocol.PassTokenTransition | game.ts:542-545 | passToken always yields myTurn with the enemy board armed and the own board disarmed, and sends nothing |
| Protocol.BombCellTransition | game.ts:546-551 | a bombCell is applied only in enemyTurn; the own board takes the shot, the game ends exactly on allSunk, and a bombResponse for that cell is sent exactly when the cell was fresh |
| Protocol.BombResponseTransition | game.ts:552-578 | the revealed ship is added; allSunk ends the game as won and disarms the enemy board; any other response passes the turn unless the game is over |
| Protocol.FinishedIsFinal | game.ts:542-545 | in finished, clicks change nothing, and only a passToken leaves the state |
| Protocol.HandleMessage | game.ts:528-580 | a handler that throws changes nothing, and only a bombCell in enemyTurn changes the own board, exactly as bombCell does |
| Protocol.MessageKeepsCommitted | game.ts:528-580 | no message moves an own ship or restamps an own cell, so a committed own board stays committed |
| Protocol.OutboxAppendOnly | game.ts:528-580 | a delivered message appends at most one message to the outbox and never changes what was sent |
| Peers.HandshakeSequential | game.ts:419-458 | when one player is ready first, the handshake ends with that player in myTurn and the other in enemyTurn, both with committed boards |
| Peers.SimultaneousReadyDeadlock | game.ts:532-541 | when both players become ready before hearing from each other, both stay in iAmReady, and no further click changes the state or sends anything |
| Peers.ExchangeOfFire | game.ts:546-577 | on a committed target board, a shot at a fresh cell gets a bombResponse saying hit exactly when the cell records a ship, that is exactly when a ship covers the cell; allSunk ends both games; otherwise the turn passes to the other player |
| Peers.RepeatedShotNoReply | game.ts:247-249 | a shot at a cell already hit gets no reply, and the shooter keeps the turn |
| Peers.FireKeepsTurn | game.ts:311-318 | in myTurn two clicks send two bombCell messages; firing does not disarm the board |
| Games.Game.ValidInv | game.ts:357-359 | a valid game object has a session value satisfying the session invariant |
| Games.Game.constructor | game.ts:364-371 | a new game starts in begin with the gameStart status, an empty outbox, no known enemy ships, and the own board randomized from the given draws |
| Games.Game.RandomizeMyBoard | game.ts:370 | only the own board changes, as randomize does |
| Games.Game.PassToken | game.ts:451-458 | the session becomes PassToken of the old one |
| Games.Game.GetToken | game.ts:443-449 | the session becomes GetToken of the old one |
| Games.Game.ReadyToStartGame | game.ts:419-435 | the session becomes ReadyToStartGame of the old one |
| Games.Game.CommitMyBoard | game.ts:420 | only the own board changes, as boardIsValid does, and the verdict is that of Validate |
| Games.Game.Announce | game.ts:422-430 | the session becomes Announce of the old one |
| Games.Game.OnEnemyBoardEvent | game.ts:372-396 | the session becomes OnEnemyBoardEvent of the old one |
| Games.Game.ClickEnemyCell | game.ts:306-319 | the session becomes ClickEnemyCell of the old one |
| Games.Game.OnMyBoardEvent | game.ts:397-416 | the session becomes OnMyBoardEvent of the old one |
| Games.Game.OnReadyToPlay | game.ts:532-541 | the session becomes OnReadyToPlay of the old one |
| Games.Game.OnBombResponse | game.ts:552-578 | the result and session are OnBombResponse of the old session |
| Games.Game.ShowOutcome | game.ts:555-577 | the session becomes Outcome of the old one |
| Games.Game.Win | game.ts:564-573 | the game is finished and won, with the enemy board disarmed |
| Games.Game.IncomingBomb | game.ts:460-463 | the result and session are IncomingBomb of the old session |
| Games.HandleMessage | game.ts:528-580 | the result and session are HandleMessage of the old session, and the game stays valid |

Every `Games.Game` method also keeps `Valid()`. Its value therefore satisfies the session
invariant (`Games.Game.ValidInv`), so the Protocol lemmas apply to the objects.

## Left out

- The DOM, jQuery and CSS: the `element` fields, `updateLayout`, the hit and miss marks on
  the enemy board, draggable and droppable, the resize handler and the status animation.
  `updateStatus` is modelled as the last status shown.
- The `positioningEnabled` flag and the `dragAndDropEnabled` setter. They only enable or
  disable the drag, drop and flip handlers. `Boards.MyBoard.Reposition` and
  `Boards.MyBoard.FlipAt` can be called in any state.
- The drop handler's pixel arithmetic (`Math.round` of offsets). `Boards.MyBoard.Reposition`
  takes the resulting row and column as inputs.
- `MyBoard.onCellClick` (game.ts:231-242) is never registered as a handler, so it has no
  effect.
- PeerJS: the peer, the connection handlers and chat (game.ts:468-526). `connection.send` is
  an append to the outbox, and delivery is a call of `HandleMessage`.
- `Math.random` and the unbounded do-while loop of `randomize`. The draws are a finite list
  of rounds passed in, and `valid` reports whether one round was accepted before the list
  ran out.
- `Date.now`, `startTime` and `duration`. They are wall-clock time with no effect on the
  game.
- `Cells.ParseCellLocation` accepts only an optional minus sign followed by digits, where
  JavaScript's `parseInt` also reads a prefix such as "3x". The game only ever parses strings
  that `cellLocation` produced, and those round-trip.
- `Boards.MyBoard.BoardIsValid` tests duplicates and range on positions instead of
  sorting strings. `DuplicateScan.SourceChecksAgree` proves that the two give the same
  answers.
- `Boards.MyBoard.BombCell` takes the position instead of the cell element whose stored
  location string it parses.
- Messages with missing or ill-typed fields (a bombCell without `cellPos`, say). Only the
  four well-formed messages, untyped data and unknown tags are modelled. An absent
  `allSunk` and `allSunk: false` act alike, so `allSunk` is a flag.
- Non-integer or non-numeric positions in a received message. Positions are integers, and
  a position off the grid makes the lookup throw, modelled as `raised`.
- Protocol.Inv does not include `BoardModel.Committed`. The game can reach a turn without a
  commit: a bombResponse with allSunk finishes a game that is still in begin, and a passToken
  then starts a turn. Ships can also be moved after a commit, because the drag gating is not
  modelled. Lemmas that need the stamps to match the placements, such as `Peers.ExchangeOfFire`,
  require `Committed`. `Protocol.ReadyToStartGameSpec` establishes it, and
  `Protocol.MessageKeepsCommitted` preserves it.
- The abstract `Board` class. Its fields are declared on each board class that uses them.
  The `cells` of `EnemyBoard` only carry CSS classes and are not modelled.
- Board construction is modelled only for `MyBoard` (`InitialBoard` and its constructor).
  `Board.getRandomPosition` is replaced by the draws.
