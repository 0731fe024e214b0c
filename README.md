# Barikade: a verified model of the rule engine and the client gating

This project models, in Dafny, the core of Barikade: a browser race-board
game in which pieces move along a graph, barricades block passage and must
be re-placed when captured, and a piece landed on goes back to its house.
It then proves properties of that model.

- **game.js**: the rule engine and the turn machine.
  - `buildGraph`: the board graph.
  - `enumeratePaths`: the depth-first path search.
  - `computeLegalMoves`: move generation, with its de-duplication.
  - `movePiece`: capture, goal entry and barricade pick-up.
  - `checkWin`, `computeBarricadePlacements`, `placeBarricade`.
  - `endTurn`, `nextPlayer`, `rollDice` (the rolled value is a parameter), `newGame`.
  - `setPlayers`, `normalizeRoomCode`, `pieceAtBoardNode`, `anyPiecesAtNode`.
  - The host's intent authority: `handleRemoteIntent`, `colorOf` and `roleOf`.
  - The server-format branch of `applyRemoteState`, and `serializeState`.
- **app.js**: the online client.
  - The action gate `canAct`, and `applySnapshot`.
  - The adjacency build in `loadBoard`.
  - The `legal` message handler, and the request decision in `onClick`.

Modules, one per file, follow the program's structure:

| module | models |
|---|---|
| `Common` | colours, `Option`, `indexOf`, the cyclic successor index |
| `Board` | `buildGraph` and the initial barricades |
| `Paths` | `enumeratePaths` and its recursive `dfs` |
| `Moves` | `computeLegalMoves`, the grouping by piece, the occupancy queries, the barricade placements |
| `Players` | `setPlayers` |
| `Room` | `normalizeRoomCode` |
| `Turn` | the game state as a value, and each state change of game.js as a function of it |
| `Authority` | `handleRemoteIntent` |
| `Wire` | the server snapshot mapping and the saved form |
| `Game` | the class holding the state, with methods that change it in place as game.js does |
| `Client` | the app.js client state and its handlers |

Each state-changing method of `Game.Game` is proved to leave its `table`
equal to the matching function of `Turn`, `Authority` or `Wire` applied to
the old table. It is also proved to keep `Valid()`: the table is well
shaped, and the cached legal moves are those of the current roll. The
rules' promises are then lemmas about those functions. The loops follow the
source: the DFS, the candidate loops, the de-duplication, the grouping, the
capture loop, `checkWin`, the edge loops and the snapshot piece loop. Each
is proved against a function of its inputs.

The model follows the code in these points:

- A server snapshot piece whose `posKind` is `"goal"` is installed as being in its house (game.js:332-337). Only `"board"` with a node id places a piece on the board.
- `roleOf` reads a roster entry's `role` field, not the `isHost` flag that the room rosters carry.
- `nextPlayer` takes the successor in the table's own player list.
- `placeBarricade` with an undefined node id changes nothing, because the placement choices never contain it.

## Model

| member | source | states |
|---|---|---|
| Common.Rank | game.js:58 | the canonical rank of a colour is below 4 and indexes that colour in the default order |
| Common.ColorOfName | game.js:58-61 | exactly the four colour names are recognised, and each maps back to its name |
| Common.NameRoundTrip | game.js:52-58 | reading a colour's wire name gives the colour back |
| Common.IndexOf | game.js:505 | the result is -1 exactly when the element is absent, otherwise the first index holding it |
| Common.NextIndex | game.js:506 | the successor index of any index in -1..n-1 is a valid index |
| Common.NextIndexIsMod | game.js:506 | the successor index equals the source's `(idx+1) % length` |
| Common.IndexOfDistinct | game.js:505 | in a duplicate-free list, `indexOf` of the element at k is k |
| Common.CyclicNext | game.js:504-506 | in a duplicate-free list the successor is found at the next index, and with two or more entries it differs from the current one |
| Board.KeyOrder | game.js:424-427 | the adjacency keys in insertion order are duplicate-free and are exactly the board-kind node ids |
| Board.ScanNodes | game.js:424-432 | the node loop gives an empty adjacency entry per board node, the key order, the run nodes, the goal and the start nodes, as the node flags define them |
| Board.AddEdges | game.js:433-437 | the edge loop keeps the key set, and each key's list is the neighbours the edges give it among the keys |
| Board.OverrideStarts | game.js:439-441 | a start node is present when the nodes or a truthy meta entry give one, and a meta entry wins |
| Board.BuildGraph | game.js:419-443 | the built graph is well formed: keys are the board nodes, the lists come from the edges, the meta overrides are applied to goal and starts |
| Board.RunBarricades | game.js:461-464 | the initial barricades are exactly the run nodes other than the goal |
| Board.AdjOfMember | game.js:433-437 | x is a neighbour of a exactly when some edge joins a and x and both are board nodes |
| Board.AdjSymmetric | game.js:436 | x is a neighbour of a exactly when a is a neighbour of x |
| Board.AdjOfInKeys | game.js:435 | a neighbour relation only ever involves two board nodes |
| Paths.Dfs | game.js:585-594 | the recursive search with its visited set and path stack returns exactly the paths of the recursive definition |
| Paths.EnumeratePaths | game.js:582-597 | p is returned exactly when it starts at `start`, has `steps` moves along edges, repeats no node and meets a barricade only at its end |
| Paths.ExtendMember | game.js:587-593 | a path comes from the neighbour loop exactly when it comes from one of the neighbours |
| Paths.PathsFromSound | game.js:585-594 | every path the search returns extends the current path by valid, fresh, unbarricaded steps |
| Paths.PathsFromComplete | game.js:585-594 | every such extension is returned by the search |
| Paths.PathsFromShape | game.js:586-595 | every returned path starts at the start node and has k+1 nodes |
| Paths.PathsFromExact | game.js:582-597 | membership in the search result is equivalent to the path predicate |
| Moves.PathMovesAt | game.js:604-606 | one move per path, in order, ending at the path's last node |
| Moves.PathMovesMember | game.js:605 | a move is among a piece's path moves exactly when colour, index, origin match and its path is one of the paths, ending at the path's last node |
| Moves.ExitPaths | game.js:612-622 | every house-exit path has exactly `dice` nodes, the start node counting as one pip |
| Moves.Dedup | game.js:624-630 | de-duplication keeps only input moves, keeps every key, and leaves no key twice |
| Moves.PieceMovesIndex | game.js:601-607 | a board move generated for piece i is a move of piece i |
| Moves.BoardCandidatesMember | game.js:601-608 | a board candidate is exactly a move of one of the first n pieces among that piece's moves |
| Moves.HouseMovesMember | game.js:614-621 | a house candidate is exactly a path move of some piece standing in the house |
| Moves.PieceMoveSound | game.js:601-607 | every board move starts from the piece's node and follows a legal path of `dice` moves |
| Moves.HouseCandidateOrigin | game.js:609-623 | every house candidate belongs to a piece in the house, needs an existing and unbarricaded start node, and follows an exit path |
| Moves.HouseMoveSound | game.js:609-623 | every house candidate satisfies the house-move rule |
| Moves.LegalMovesSound | game.js:599-631 | every legal move satisfies the board-move or the house-move rule |
| Moves.PieceMoveComplete | game.js:601-607 | every move satisfying the board-move rule is generated |
| Moves.HouseMoveComplete | game.js:609-623 | every move satisfying the house-move rule is generated |
| Moves.LegalMovesComplete | game.js:599-631 | every rule-satisfying move has a legal move with the same key |
| Moves.HouseExitConditions | game.js:609-616 | a house move exists only for a piece in the house with an existing unbarricaded start; with a 1 it stops on the start node |
| Moves.LegalMovesDistinct | game.js:624-630 | no two legal moves share colour, index, destination and origin |
| Moves.PushPathMoves | game.js:604-606 | the push loop appends the path moves in order |
| Moves.CollectBoardMoves | game.js:600-608 | the piece loop collects every board candidate of the five pieces |
| Moves.ExitPathsOf | game.js:612-618 | the exit paths are the start node alone for a 1, and the searched paths otherwise |
| Moves.CollectHouseMoves | game.js:609-623 | the house loop collects exactly the house candidates |
| Moves.Dedupe | game.js:624-630 | the seen-set loop computes the de-duplication |
| Moves.ComputeLegalMoves | game.js:599-631 | the result is the legal move list, duplicate-free by key, and every move in it obeys the rules |
| Moves.PieceAtBoardNode | game.js:539-545 | returns the first index on the node, or none exactly when no piece of the colour is there |
| Moves.OccupantsOfMember | game.js:576-577 | (d,i) is listed exactly when d is the colour scanned and piece i stands on the node |
| Moves.OccupantsMember | game.js:573-580 | (d,i) is listed exactly when d is a player and its piece i stands on the node |
| Moves.AnyPiecesAtNode | game.js:573-580 | the loop lists exactly the pieces on the node |
| Moves.Placements | game.js:640-648 | a node is a placement choice exactly when it is a board node, not the goal and not barricaded, each once |
| Moves.BarricadePlacements | game.js:640-648 | the choices are the board nodes minus the barricades and the goal, without repetition |
| Moves.MovesOfPieceMember | game.js:523-527 | the group of piece i holds exactly the legal moves of piece i |
| Moves.ByPieceAppend | game.js:523-527 | adding a move appends it to its piece's group and leaves the other groups alone |
| Moves.LookupByPiece | game.js:1106 | looking up a piece in the grouping gives its moves, and an empty list for a piece without moves |
| Moves.GroupByPiece | game.js:522-527 | the grouping loop builds the map whose every lookup is that piece's moves |
| Moves.FindMove | game.js:1107 | finds the first move of the given colour to the given node, and reports none exactly when there is none |
| Players.Keep | game.js:59-64 | keeps exactly the named colours, in the given order |
| Players.InCanonicalOrder | game.js:65 | sorting gives exactly the colours, in rank order |
| Players.KeepSorted | game.js:65 | filtering a rank-sorted order stays rank-sorted |
| Players.PlayersOf | game.js:56-68 | the player list is rank-sorted, duplicate-free, non-empty, and holds the named colours or red and blue when none is named |
| Players.SetPlayers | game.js:56-68 | the filtering and sorting loops compute that player list |
| Players.SortByRank | game.js:65 | the sort gives the canonical order of the de-duplicated colours |
| Players.PlayersForCount | game.js:69-70 | a count gives the first 2 to 4 default colours, clamped |
| Room.UpperChar | game.js:121 | the JavaScript upper case of every character whose upper case contains a letter A-Z, one to three characters long: a-z become A-Z, code characters stay, and a longer upper case is capitals followed by modifier marks; any other character is kept |
| Room.Upper | game.js:121 | the upper case of a string is at least as long as the string and at most three times as long |
| Room.UpperAppend | game.js:121 | the upper case of a concatenation is the concatenation of the upper cases |
| Room.UpperOfFixed | game.js:121 | a string of characters that upper-case to themselves is its own upper case |
| Room.UpperCharFixed | game.js:121 | the upper case of any character is its own upper case |
| Room.KeepCode | game.js:121 | filtering keeps only A-Z and 0-9, and a code stays unchanged |
| Room.NormalizeRoomCode | game.js:120-122 | the result is a code of at most 10 characters, empty for a missing input |
| Room.UpperOfCode | game.js:121 | a code is its own upper case |
| Room.NormalCodeFixed | game.js:120-122 | a code of at most 10 characters normalizes to itself |
| Room.NormalizeIdempotent | game.js:120-122 | normalizing twice is normalizing once |
| Room.UpperTwice | game.js:121 | upper-casing twice is upper-casing once |
| Room.NormalizeIgnoresCase | game.js:120-122 | a string normalizes like its upper case, including the sharp s, the ligatures, the long s and the dotless i |
| Room.NormalizeSingle | game.js:120-122 | a one-character string normalizes to its upper case when that is all code characters |
| Room.NormalizeSpecialLetters | game.js:120-122 | the sharp s normalizes to "SS", the ffi ligature to "FFI", the long s to "S" and the dotless i to "I" |
| Wire.LabelIndex | game.js:328 | a label n of at least 1 gives slot n-1, anything else slot 0 |
| Wire.Slot | game.js:327-329 | only red and blue pieces with a slot below 5 are taken |
| Wire.ServerPos | game.js:332-337 | a piece is on the board exactly for `posKind` "board" with a node id, never in the goal |
| Wire.ServerPieces | game.js:316-338 | the mapping gives five positions for red and for blue |
| Wire.LastWriter | game.js:326-338 | finds the last snapshot entry writing a slot |
| Wire.ServerPiecesAt | game.js:326-338 | each slot holds the position of the last entry writing it, or the house |
| Wire.ServerPiecesNeverGoal | game.js:332-337 | no piece of a server snapshot is installed in the goal |
| Wire.MapServerPieces | game.js:325-338 | the snapshot piece loop computes that mapping |
| Wire.ServerPhase | game.js:314-342 | "place_barricade" becomes the placing phase, a missing phase becomes need_roll, other names are kept |
| Wire.FromServerEffect | game.js:309-349 | the installed table is well shaped for red and blue, with the named colour to move, exactly the listed barricades, no winner, no choices, no cached moves, and the snapshot's `started` and `paused` flags |
| Wire.SetToList | game.js:378 | the list holds each barricade exactly once |
| Wire.PosOf | game.js:377 | reading a position string back gives a position with that string |
| Wire.PosNames | game.js:377 | each saved position is the string of the position |
| Wire.PosesOf | game.js:377 | each restored position is read from its string |
| Wire.SavedRoundTrip | game.js:376-383 | restoring a saved form gives the table back, server flags included, apart from the cached legal moves |
| Turn.PhaseOf | game.js:82 | a phase name is read back to a phase with that name |
| Turn.PhaseRoundTrip | game.js:82 | the four phases survive the name round trip |
| Turn.EnemiesMember | game.js:655 | an occupant is an enemy exactly when its colour is not the mover's |
| Turn.SendHome | game.js:656 | sending pieces home keeps the colours and the row lengths |
| Turn.SendHomeAt | game.js:656 | a piece ends in the house exactly when it is listed, and otherwise keeps its position |
| Turn.SendEnemiesHome | game.js:655-656 | the capture loop sends exactly the enemy occupants home |
| Turn.GoalCount | game.js:635 | the goal count reaches the row length exactly when all pieces are in the goal |
| Turn.FirstComplete | game.js:634-636 | the winner found is a player with five pieces in the goal, and none is found exactly when no player has them |
| Turn.FirstCompleteAt | game.js:634-636 | the first complete player in turn order is the one found |
| Turn.Moved | game.js:655-659 | moving keeps the colours and row lengths |
| Turn.NextPlayerCycles | game.js:503-506 | the next player is the one at the cyclic next index, and differs from the current one when there are two or more players |
| Turn.EndTurnEffect | game.js:489-513 | a turn end clears dice, choices and cached moves and waits for a roll; a 6 without a winner keeps the player, otherwise the successor moves; pieces, barricades, winner and server flags are kept |
| Turn.RollEffect | game.js:515-537 | a roll outside need_roll changes nothing; with legal moves it records the roll and awaits a move; without any it ends the turn, a 6 rolling again |
| Turn.MovePieces | game.js:650-662 | the new pieces are the captured-and-moved pieces, with the mover in the goal when it reaches it |
| Turn.MovedAt | game.js:654-659 | the mover lands on its target, enemies on the target go home, all else stays |
| Turn.CaptureEffect | game.js:654-662 | after a move the mover is on its target (or in the goal), enemies there are in the house, all other pieces unchanged |
| Turn.PickupEffect | game.js:674-682 | landing on a barricade away from the goal removes it, asks for a placement among the free board nodes, and keeps player and roll |
| Turn.EnterGoalEffect | game.js:661-671 | entering the goal places the piece there; five in the goal means a winner and game over; otherwise the result is `endTurn` applied to the new pieces; barricades kept |
| Turn.GoalPlacement | game.js:662-665 | the placed piece is in the goal and a full goal row yields a winner |
| Turn.GoalEntryEffect | game.js:661-671 | for a move onto the goal: the piece is in the goal; a completed colour wins and ends the game; without a winner the result is `endTurn` of the new pieces, so the dice are cleared and a 6 keeps the mover while any other roll passes to the successor |
| Turn.MoveBarricades | game.js:658-682 | a move removes the target's barricade exactly when it lands on one away from the goal |
| Turn.PlainMoveEffect | game.js:684 | a move to a plain node is `endTurn` applied to the moved pieces: dice and choices cleared, a roll awaited, a 6 without a winner keeps the mover and any other roll passes to the successor; barricades and winner kept |
| Turn.PlaceEffect | game.js:687-696 | a placement outside the placing phase, on the goal or off the choices changes nothing; otherwise it adds the barricade, clears the choices and ends the turn |
| Turn.NewGameEffect | game.js:445-472 | a new game is well shaped, with the first player to roll, all pieces in their houses, no winner, no server flags, and a barricade on exactly the run nodes other than the goal |
| Turn.EndTurnKeeps | game.js:489-501 | ending a turn keeps the table well shaped and its cache consistent |
| Turn.NextPlayerKeeps | game.js:503-513 | passing the turn keeps the table well shaped and consistent |
| Turn.RollKeeps | game.js:515-537 | a roll keeps the table well shaped, and its cached moves are the legal moves of the roll |
| Turn.MoveKeeps | game.js:650-685 | a move keeps the table well shaped and consistent |
| Turn.PlaceKeeps | game.js:687-696 | a placement keeps the table well shaped and consistent |
| Turn.GoalStaysFree | game.js:687-696 | no turn end, roll or placement puts a barricade on the goal |
| Turn.GoalStaysFreeOnMove | game.js:650-685 | no move puts a barricade on the goal |
| Authority.ColorOf | game.js:1067-1070 | a sender has a colour exactly when it is on the roster with a truthy colour, and that is it |
| Authority.RoleOf | game.js:1071-1074 | a sender has a role exactly when it is on the roster with a truthy role, and that is it |
| Authority.SelectedMove | game.js:1106-1107 | a selected move is a cached legal move of that piece, to that node, of the current player |
| Authority.ApplyMoveEffect | game.js:1106-1109 | a move intent is applied and broadcast exactly when a matching legal move exists, and otherwise changes nothing |
| Authority.OthersIgnored | game.js:1076-1117 | a sender that is not the turn player changes nothing and causes no broadcast, except for a reset |
| Authority.ResetOnlyByHost | game.js:1094-1097 | a reset starts a new game and sends a snapshot exactly when the sender's role is host |
| Authority.PassEffect | game.js:1084-1093 | end/skip by the turn player broadcast, and pass the turn except while placing or after the game |
| Authority.PhaseGuards | game.js:1098-1100 | a move intent outside need_move, and a placement intent outside placing_barricade (game.js:1111-1113), are rejected without a broadcast and leave the game unchanged |
| Authority.GameOverAbsorbs | game.js:1075-1116 | once the game is over, every intent except a reset leaves the game unchanged, winner included |
| Authority.RejectedKeeps | game.js:1075-1117 | every intent the host answers without a broadcast leaves the game unchanged |
| Authority.AppliedMoveIsLegal | game.js:1098-1110 | an accepted move intent comes from the turn player awaiting a move, and applies a legal move of the current roll to the named target and piece |
| Authority.MoveIntentDispatch | game.js:1098-1104 | a well-formed move intent from the turn player goes to the move lookup |
| Authority.LegalMoveApplied | game.js:1098-1108 | every cached legal move of the turn player is accepted when requested |
| Authority.ApplyMoveKeeps | game.js:1106-1108 | applying a move intent keeps the table well shaped and its cache consistent |
| Authority.IntentKeeps | game.js:1075-1118 | every intent keeps the table well shaped and its cache consistent |
| Game.Game.constructor | game.js:445-472 | a new game object holds the new game of the given colours, valid |
| Game.Game.NextPlayer | game.js:503-513 | passing the turn in place gives the next-player table and a valid state |
| Game.Game.EndTurn | game.js:489-501 | ending the turn in place gives the end-turn table |
| Game.Game.RollDice | game.js:515-537 | rolling in place gives the roll table, legal moves cached and grouped |
| Game.Game.SendEnemiesHome | game.js:654-656 | the capture step changes only the pieces, as the capture function gives |
| Game.Game.CheckWin | game.js:633-637 | the winner check changes only the winner, as the win function gives |
| Game.Game.MovePiece | game.js:650-685 | moving in place gives the move table and keeps the state valid |
| Game.Game.PlaceBarricade | game.js:687-696 | placing in place gives the placement table |
| Game.Game.NewGame | game.js:445-472 | a reset in place gives the new game table |
| Game.Game.HandleRemoteIntent | game.js:1075-1118 | the intent handler's new state and broadcast are those of the intent function, and the state stays valid |
| Game.Game.ApplyServerState | game.js:309-350 | installing a server snapshot gives its table and a valid state |
| Game.Game.SerializeState | game.js:376-383 | the saved form describes the current table field by field, with the `started` and `paused` flags when a server snapshot set them |
| Client.CanAct | app.js:131-138 | the gate is open exactly when connected, started, not paused, with an own colour equal to the turn colour; a turn refusal names the turn colour |
| Client.CanActFirstFailure | app.js:131-138 | the gate opens when no check fails, and otherwise reports the first failing check in source order |
| Client.ActingPlayerIsOnTurn | app.js:135-136 | an open gate means the own colour is the turn colour and is set |
| Client.Or | app.js:421 | `x \|\| d` is x when truthy and d otherwise |
| Client.OrNull | app.js:423 | `x ?? null` is null for undefined and null, and x otherwise |
| Client.ApplySnapshotEffect | app.js:418-430 | started and paused become booleans; missing turn colour and phase keep the old ones; a missing roll becomes null; non-array pieces keep the old pieces; barricades are exactly the listed ones; the roll button is enabled exactly when the gate is open in need_roll; connection, own colour, selection, targets and animation are kept |
| Client.ApplySnapshotIdempotent | app.js:418-430 | applying a snapshot twice equals applying it once |
| Client.FullSnapshotDecides | app.js:419-426 | a snapshot with turn colour, phase and pieces fixes the view regardless of the previous game fields |
| Client.EmptySnapshotEffect | app.js:451 | a message without a state stops the game, disables rolling and clears the barricades, keeping turn, phase and pieces |
| Client.OnLegalSpec | app.js:466 | the legal targets become exactly the listed targets, and nothing else changes |
| Client.ClickSpec | app.js:325-370 | nothing is sent during an animation or with a closed gate; a placement is sent in the placing phase for a hit node; a piece hit in need_move asks for its targets and selects it; a move request is sent exactly for a hit node among the targets with a piece selected, and clears the targets |
| Client.SelectThenMove | app.js:346-367 | selecting a piece, receiving its targets and clicking one of them sends the move request for that piece and target |
| Client.MoveRequestConsumesTargets | app.js:363-368 | right after a move request, the same click sends nothing |
| Client.BuildAdjacency | app.js:148-154 | every edge endpoint is a key, b is a neighbour of a exactly when an edge joins them, and the map is symmetric |
| Client.Client.constructor | app.js:43-69 | the client starts in the initial state |
| Client.Client.LoadBoard | app.js:146-154 | the stored adjacency is that of the board's edges, a missing edge list counting as empty |
| Client.Client.ApplySnapshot | app.js:418-433 | applying a snapshot in place gives the snapshot view |
| Client.Client.OnLegal | app.js:464-470 | a legal message in place replaces only the targets |
| Client.Client.OnClick | app.js:325-370 | a click in place gives the click decision and its new view |

## Left out

- Canvas rendering, hit-testing, mouse, touch, pan and zoom input, toasts, overlays, button labels, hints and the network log are not modelled. They are floating-point geometry and DOM output. `pickNode` and `pickPiece` become the click parameters `nodeHit` and `pieceHit`.
- The WebSocket lifecycle is I/O and is not modelled: connecting, reconnect backoff, `wsSend`, `netSend` and `broadcastState`. `onClick` returns the message it hands to `netSend`, and the intent handler returns which broadcast it makes.
- The dice roll's randomness is a parameter `d`. The result of `getActiveColors` is the parameter `active`, because game.js:303 splices its end into `applyRemoteState`.
- The legacy branch of `applyRemoteState` (game.js:352-372) is not modelled. It calls `computeLegals`, whose definition is lost in the garbled region at game.js:372.
- Session persistence in `localStorage` is not modelled, and neither is the board fetch. The board is a given value.
- `skipTurn` is called but never defined, so it is not modelled.
- `trySelectAtNode` and `selectPiece` are the offline local selection and are not modelled.
- The server piece-id table `serverPieceIds` is display bookkeeping and is not modelled.
- Player count: the rules are generic over the list `setPlayers` builds. Server snapshots fix it to red and blue. `Players.PlayersForCount` models the offline numeric argument.
- The game state: the source's separate globals (`state`, `phase`, `placingChoices`, `legalMovesAll`, `legalMovesByPiece`) are one record field `table`. The model therefore does not capture aliasing between them.
- Wire.FromServer and Game.Game.ApplyServerState require the snapshot's turn colour to be "red" or "blue". The source installs any truthy string such as "green". The next `rollDice` would then read `state.pieces[color][i].pos` on a missing row (game.js:521, game.js:601-602) and throw.
- Authority.LegalMoveApplied does not cover a legal move whose target id is the empty string, which the source rejects as not truthy.
- Game.Game.HandleRemoteIntent: the piece index is an integer. `Number(intent.pieceIndex)` of a fraction finds no group and changes nothing, which the model does not represent.
- Moves.Dedup uses a tuple key in place of the string key `color:index->toId:H/B`. The two identify the same moves for colour names and node ids without `:` or `->`.
- Wire.SetToList does not fix the barricade order of the serialized array, which is the insertion order of the JavaScript `Set`.
- Wire.PosOf reads back the reserved strings "house" and "goal", so a board node literally named that is not distinguished.
- Snapshot values: the client model covers scalar JSON values only. A snapshot field holding an object or array counts as truthy in the source, and the model does not represent it.
- Client.OnLegalSpec: a `targets` value that is not an array is read here as a missing list.
- Client.Client.constructor: the roll button's initial enabled state comes from the HTML page, which is not part of this model. It starts disabled here.
- Room.UpperChar / Room.Upper / Room.NormalizeRoomCode: only characters whose upper case contains a letter A-Z are upper-cased. These are a-z, the dotless i, the long s, the sharp s, the ligatures U+FB00 to U+FB06, and the letters whose upper case carries a combining mark (U+0149, U+01F0, U+1E96 to U+1E9A). Any other character keeps its own form, so "é" stays "é" rather than becoming "É". The code filter drops both forms, so the normalized code is unaffected.
- Board.BuildGraph: node ids and edge endpoints are strings. The source keys `adj` by the raw `n.id` but looks edges up by `String(e[0])` (game.js:430, game.js:434-435). So a board with numeric node ids gets no edges, which the model does not represent.
- JavaScript numbers are modelled as unbounded integers, and there is no `NaN`.
- `STATE.legalPaths` is only ever cleared in app.js, so it is not modelled.
