# Dijon Go server and client: a verified model of the game core

This project models the game core of a Go server and its browser client in Dafny.

The server side (C#) covers:

- The board contract of the rules engine (`IBoard`) and the behaviour its unit tests assert.
- One game session (`Game`): two seats, whose turn it is, the started flag, the score rule, and the calls it forwards to the clocks and the rules engine.
- Game creation (`CreateGameStrategy.Execute`) into the custom and matchmaking registries.
- The WebSocket server's game-side logic (`Server`):
  - telling a handshake from a frame;
  - routing an interpreter response to one client or to both seats;
  - starting a full game;
  - settling a finished game;
  - clearing a disconnected client's seats.

The client side (TypeScript) covers:

- The live grid (`GridComponent`): clock text, capture counters, the board snapshot decoder, and the board size.
- The replay screen (`ReplayScreenComponent`): the list of recorded states, the cursor on the state shown, its keyboard moves, and painting one state.

Modules, in dependency order:

| file | module | models |
|---|---|---|
| wrappers.dfy | `Wrappers` | `Option`, `Result`, `Outcome` |
| text.dfy | `Text` | `Split`/`Join`; decimal formatting and C#/JavaScript number parsing; `padStart` |
| goban.dfy | `Goban` | `IBoard` as class `Board` over `array2`; the `GameBoardTests` scenarios |
| session.dfy | `Session` | class `Game`; class `Client` |
| registry.dfy | `Registry` | `CreateGameStrategy.Execute` over the two registries |
| server.dfy | `WebSocketServer` | class `Server` with an outbox of frames |
| boardview.dfy | `BoardView` | the snapshot decoder shared by both client screens; a reference encoder |
| grid.dfy | `Grid` | class `GridView` |
| replay.dfy | `Replay` | class `ReplayScreen` |

Collaborators whose code is not part of this model enter as parameters:

- the interpreter's response text;
- the score pair `CalculateScore` returns;
- the clock reading of the player who just moved;
- the database's users by token;
- each element and field the client pages read.

Frames the server writes are appended to `Server.sent`; Elo updates are appended to `Server.eloUpdates` as (winner, loser).

JavaScript numbers are `Text.Num`: an unbounded integer or NaN. `Number()` is modelled for the empty string (0), for an optional sign followed by decimal digits, and as NaN for everything else. `%` is JavaScript's truncating remainder (`Grid.JsRem`).

`Server.cs` declares a single dictionary, `Games`, which `TreatMessage` and `DisconnectClient` use. `CreateGameStrategy.cs` writes to `Server.CustomGames` and `Server.MatchmakingGames` instead, which that file does not declare. The model follows the code: every operation takes the dictionaries it uses as parameters, and the model does not decide how they relate. As the code does, a game's own id is `CustomGames.Count + 1` even when it is created for the matchmaking registry.

## Model

| member | source | states |
|---|---|---|
| Goban.Board.constructor | Server/Server/Tests/Test_GoLogic/GameBoardTests.cs:8-23 | A new board has the given size and every cell Empty, as the test asserts; the Empty snapshot, Black to move and zero captures are the model's choice, as `GameBoard`'s constructor is not part of this model |
| Goban.Board.GetStone | Server/Server/GoLogic/Goban/IBoard.cs:35-40 | Succeeds exactly on valid coordinates, returning the stone at exactly (x, y) with its colour; otherwise an out-of-range error |
| Goban.Board.IsValidCoordinate | Server/Server/GoLogic/Goban/IBoard.cs:57 | The valid coordinates are exactly the pairs that index both the grid and the snapshot |
| Goban.Board.PlaceStone | Server/Server/GoLogic/Goban/IBoard.cs:42-49 | On valid coordinates only that cell takes the colour and every other cell is unchanged; off-grid coordinates are refused and change nothing |
| Goban.Board.GetNeighbors | Server/Server/GoLogic/Goban/IBoard.cs:65-70 | At most four stones, each on the grid, orthogonally adjacent and carrying its current colour; every on-grid neighbour is included |
| Goban.Board.IsKoViolation | Server/Server/GoLogic/Goban/IBoard.cs:72-77 | True exactly when the current position equals the stored previous position at every cell |
| Goban.Board.Clone | Server/Server/GoLogic/Goban/IBoard.cs:59-63 | A deep copy in fresh arrays: same size, position, snapshot, turn and capture counters |
| Goban.Board.CopieBoard | Server/Server/Tests/Test_GoLogic/GameBoardTests.cs:62-72 | Afterwards the snapshot equals the current position at every cell |
| Goban.CopyGrid | Server/Server/Tests/Test_GoLogic/GameBoardTests.cs:62-72 | The destination grid equals the source grid at every cell |
| Goban.CopieThenKo | Server/Server/GoLogic/Goban/IBoard.cs:72-77 | Right after CopieBoard the position is a ko repetition; recolouring one cell ends it |
| Goban.InitializationScenario | Server/Server/Tests/Test_GoLogic/GameBoardTests.cs:8-23 | A 9x9 board has size 9 and every cell Empty |
| Goban.GetStoneScenario | Server/Server/Tests/Test_GoLogic/GameBoardTests.cs:26-38 | GetStone(0, 0) returns the stone at 0, 0 |
| Goban.GetStoneOutOfRangeScenario | Server/Server/Tests/Test_GoLogic/GameBoardTests.cs:41-48 | GetStone(10, 10) on a 9x9 board is an out-of-range error |
| Goban.ValidCoordinateScenario | Server/Server/Tests/Test_GoLogic/GameBoardTests.cs:51-59 | (0, 0) is valid on a 9x9 board and (9, 9) is not |
| Goban.CopieBoardScenario | Server/Server/Tests/Test_GoLogic/GameBoardTests.cs:62-72 | After CopieBoard the snapshot holds White at (0, 0) and Black at (1, 1) |
| Session.ScoreRuleFor | Server/Server/WebSocket/Model/Game.cs:90-94 | "c" selects area scoring, "j" territory scoring, and any other tag no score rule, in both directions |
| Session.NextTurn | Server/Server/WebSocket/Model/Game.cs:143-146 | The turn goes to the second seat when the first seat holds it, and to the first seat otherwise; with two distinct seats and the turn on one of them, it always changes hands |
| Session.NextTurnTwice | Server/Server/WebSocket/Model/Game.cs:143-146 | With two distinct seats, a change gives the turn to the other seat and two changes give it back |
| Session.TrailingPassesStep | Server/Server/WebSocket/Model/Game.cs:131-137 | A pass extends the run of trailing passes by one; a stone the rules engine accepts resets it to zero, and one it rejects leaves it as it was |
| Session.DoublePassEnds | Server/Server/WebSocket/Model/Game.cs:191-194 | Two passes in a row end the game whatever came before, and an ended game stays ended whatever is forwarded afterwards |
| Session.EndedStep | Server/Server/WebSocket/Model/Game.cs:191-194 | One more forwarded call ends the game exactly when it had already ended, or the call is a pass right after a pass |
| Session.EndedByPassesAt | Server/Server/WebSocket/Model/Game.cs:191-194 | The game is over exactly when some prefix of the forwarded calls ends with two passes in a row |
| Session.Game.constructor | Server/Server/WebSocket/Model/Game.cs:81-95 | Not started, both seats and the turn empty, an empty board of the given size, the id is CustomGames.Count + 1, and the score rule comes from the rule tag |
| Session.Game.Start | Server/Server/WebSocket/Model/Game.cs:100-104 | The game is started and its clocks exist |
| Session.Game.AddPlayer | Server/Server/WebSocket/Model/Game.cs:111-122 | An empty first seat takes the player and the turn; otherwise an empty second seat takes the player; a full game is unchanged; a game with an empty seat gains exactly one taken seat, and a full game stays full |
| Session.Game.IsFull | Server/Server/WebSocket/Model/Game.cs:30-36 | True exactly when both of the two seats are taken |
| Session.Game.PlaceStone | Server/Server/WebSocket/Model/Game.cs:131-137 | With clocks: switches them, reads the previous player's time and forwards the stone, in that order; an accepted stone answers that time and ends the run of passes, a rejected one is raised as an error and leaves the run as it was; before Start it is a null dereference and nothing is forwarded; whether the game is over does not change |
| Session.Game.ChangeTurn | Server/Server/WebSocket/Model/Game.cs:143-146 | The turn becomes NextTurn of the old turn |
| Session.Game.GetCapturedStone | Server/Server/WebSocket/Model/Game.cs:171-174 | The captured black stones, then the captured white stones, from the board |
| Session.Game.SkipTurn | Server/Server/WebSocket/Model/Game.cs:180-184 | Forwards one pass and flips the turn once; afterwards the game is over exactly when it already was or the previous run of calls ended with a pass |
| Session.Game.TestWin | Server/Server/WebSocket/Model/Game.cs:191-194 | The rules engine reports the game over exactly when, at some point of the forwarded calls, the last two were passes |
| Session.SessionScenario | Server/Server/WebSocket/Model/Game.cs:111-122 | Two players fill a game, Start starts it, two passes end it, and the turn is back with the first player |
| Session.RejectedMoveScenario | Server/Server/WebSocket/Model/Game.cs:131-137 | Pass, rejected stone, pass ends the game and the rejected stone is an error; pass, accepted stone, pass does not end it and the stone answers the clock reading |
| Registry.NextIdIsFresh | Server/Server/WebSocket/Strategy/CreateGameStrategy.cs:37-40 | When the ids are 1..Count, Count + 1 is unused and inserting under it keeps the ids dense |
| Registry.RegisterKeeps | Server/Server/WebSocket/Strategy/CreateGameStrategy.cs:37-40 | Filing a session that no id names yet under Count + 1 keeps the ids dense and keeps each id on its own session |
| Registry.NextIdCanCollide | Server/Server/WebSocket/Strategy/CreateGameStrategy.cs:37-40 | When the ids are not dense, Count + 1 can be taken, and the new game then replaces a registered one |
| Registry.ParseCreateRequest | Server/Server/WebSocket/Strategy/CreateGameStrategy.cs:33-34 | Succeeds exactly when data has at least five fields and data[3] is a 16-bit integer, white space around it allowed, returning that size, data[4] and data[2]; fewer than four fields is an index error, and a bad size in data[3] is a format error |
| Registry.CreateRequestRoundTrip | Server/Server/WebSocket/Strategy/CreateGameStrategy.cs:33-34 | A request written with a decimal 16-bit size, with any white space around it, reads back as that size, rule and token |
| Registry.PaddedSizeScenario | Server/Server/WebSocket/Strategy/CreateGameStrategy.cs:33 | The size field " 9" reads as 9 |
| Registry.NewGameFor | Server/Server/WebSocket/Strategy/CreateGameStrategy.cs:37-43 | The new session holds the player in seat 1 with the turn, an empty seat 2, not started, with the given size, rule tag and id Count + 1; the player's token is the request's and nothing else of the user changes |
| Registry.Execute | Server/Server/WebSocket/Strategy/CreateGameStrategy.cs:31-58 | "custom" and "matchmaking" create a game holding the player in seat 1 under Count + 1 of their own pool, store the token, and answer "{id}-" with "Send_"; any other type changes nothing; malformed requests fail first; dense ids and one game per id are preserved |
| WebSocketServer.MessageIsHandshakeRequest | Server/Server/WebSocket/Server.cs:104-107 | True exactly when the message begins with "GET" |
| WebSocketServer.HandshakeDetection | Server/Server/WebSocket/Server.cs:104-107 | Every "GET ..." line is a handshake, and "GET" anywhere other than the start is not |
| WebSocketServer.ParseResponse | Server/Server/WebSocket/Server.cs:152-155 | Succeeds exactly when there is a "_" piece 1 whose text before "/" is a 32-bit integer, white space around it allowed; kind, data and game id are pieces 0 and 1 and that integer; without "_" it is an index error, and a bad id a format error |
| WebSocketServer.ParseResponseRoundTrip | Server/Server/WebSocket/Server.cs:152-155 | "{kind}_{id}/{rest}" reads back as that kind, the data "{id}/{rest}" and the game id |
| WebSocketServer.ResponseWithoutSeparator | Server/Server/WebSocket/Server.cs:152-153 | A response without "_" fails on the missing piece 1 |
| WebSocketServer.Settle | Server/Server/WebSocket/Server.cs:216-231 | Exactly one seat wins, seat 1 when its score is at least seat 2's (ties go to seat 1), and each seat's message carries its own score first |
| WebSocketServer.EndOfGameMessage | Server/Server/WebSocket/Server.cs:230-231 | The message opens with the game id and "/EndOfGame:" and closes with the win flag as "True" or "False" |
| WebSocketServer.StartMessage | Server/Server/WebSocket/Server.cs:200-201 | The message opens with the game id and "/Start:" and closes with the opponent's name |
| WebSocketServer.Reloaded | Server/Server/WebSocket/Server.cs:198-199 | A known token gives the database's user, an unknown one keeps the seat's user |
| WebSocketServer.EndOfGameRoundTrip | Server/Server/WebSocket/Server.cs:230-231 | An end-of-game message reads back as its game id, both scores and the winning flag |
| WebSocketServer.SettlementReadBack | Server/Server/WebSocket/Server.cs:225-233 | The two seats read the same game with the scores mirrored, and exactly one reads that it won |
| WebSocketServer.EloPair | Server/Server/WebSocket/Server.cs:216-223 | The winner passed to the Elo update is the seat Settle declares the winner, and the loser is the other seat |
| WebSocketServer.Addressed | Server/Server/WebSocket/Server.cs:173-179 | No delivery to a null client; otherwise exactly one delivery to it |
| WebSocketServer.Server.constructor | Server/Server/WebSocket/Server.cs:21-22 | The server is not started and nothing has been sent or settled |
| WebSocketServer.Server.SendMessage | Server/Server/WebSocket/Server.cs:173-179 | The outbox grows by the frame to the client, or by nothing when the client is null |
| WebSocketServer.Server.HandleGameEnd | Server/Server/WebSocket/Server.cs:210-234 | With a score rule and both seats: records one Elo update for the winner over the loser, then sends seat 1 and seat 2 their end messages; otherwise a null dereference and nothing is recorded |
| WebSocketServer.Server.BroadcastMessage | Server/Server/WebSocket/Server.cs:181-190 | Sends the frame to each non-null seat, first then second, then settles the game exactly when the rules engine reports it over |
| WebSocketServer.Server.StartGame | Server/Server/WebSocket/Server.cs:196-205 | Succeeds exactly when both seats are taken and both tokens are known; replaces seat 1's user, then seat 2's, with the database's users for their tokens, even when seat 1's token is unknown; on success sets the started flag and sends exactly "{id}/Start:{opponent}" to seat 1 then seat 2; a missing seat is a null dereference, an unknown token an unknown-user failure, and a failure sends nothing and keeps the flag |
| WebSocketServer.Server.TreatMessage | Server/Server/WebSocket/Server.cs:146-171 | An unsplittable response, a bad game id or an unknown game fails with the response unchanged and no frame, Elo update, flag or user changed; otherwise the result is exactly Route's for the game the id names |
| WebSocketServer.Server.Route | Server/Server/WebSocket/Server.cs:158-170 | The outbox becomes exactly the old one, then the client's frame for "Send", or the frame to each seat and the end messages of a settled game for "Broadcast", or nothing for any other kind, then the two start messages when a full game is started; the Elo updates grow by the pair of a settled game and by nothing else; a broadcast that ends a game it cannot settle is a null dereference that keeps the response; otherwise the answer is the data part; the game starts only when full and the server has not started one, and the seats' users change only then |
| WebSocketServer.Server.Dispatch | Server/Server/WebSocket/Server.cs:158-165 | "Send" adds the client's frame and no Elo update; "Broadcast" adds both seats' frames and, for an ended game that can be settled, its end messages and its Elo pair; any other kind adds nothing |
| WebSocketServer.SendScenario | Server/Server/WebSocket/Server.cs:158-161 | A "Send" response for a game with empty seats sends exactly one frame, the data part, to the invoking client, and requests no Elo update |
| WebSocketServer.UnknownFirstTokenScenario | Server/Server/WebSocket/Server.cs:196-199 | With seat 1's token unknown and seat 2's known, seat 2 still gets the database's user, the start fails on the unknown user, and nothing is sent |
| WebSocketServer.Server.DisconnectClient | Server/Server/WebSocket/Server.cs:122-140 | In every registered game the client leaves seat 1, or else seat 2, and nothing else changes; the client gets a close frame with the code, the communication ends, and the server is no longer started |
| BoardView.ColorFill | Client/src/app/grid/grid.component.ts:292-296 | A fill exists exactly for "White", "Black" and "Empty" |
| BoardView.DiscardKo | Client/src/app/grid/grid.component.ts:314-320 | The cell gets the round stone look, keeping its fill and box sizing |
| BoardView.DrawKo | Client/src/app/grid/grid.component.ts:322-328 | The cell gets the square red ko outline on a transparent fill |
| BoardView.ApplyLine | Client/src/app/grid/grid.component.ts:299-310 | Line "x,y,colour": only cell "x-y" changes, taking the ko reset and then the colour fill or the ko marker; a missing cell is a TypeError exactly when a fill or the marker is due |
| BoardView.ApplyLines | Client/src/app/grid/grid.component.ts:298-311 | The lines applied in order keep the same set of cells |
| BoardView.ApplyLinesStop | Client/src/app/grid/grid.component.ts:298-311 | After a line fails, the lines that follow change nothing |
| BoardView.DecodeSnapshot | Client/src/app/grid/grid.component.ts:289-312 | Decoding skips the header line and keeps the same set of cells |
| BoardView.ColorFillOfNames | Client/src/app/grid/grid.component.ts:292-296 | The colour map agrees with the stone colour names, and "Ko" has no fill |
| BoardView.ApplyLinesOfPlaced | Client/src/app/grid/grid.component.ts:298-311 | The lines of a well-formed snapshot are all applied, painting each intersection in turn |
| BoardView.IdOfInjective | Client/src/app/grid/grid.component.ts:303 | Distinct coordinates name distinct element ids |
| BoardView.PaintAllEffect | Client/src/app/grid/grid.component.ts:298-311 | With distinct coordinates, each intersection's cell shows its own mark and every other cell keeps its style |
| BoardView.DecodeEncoded | Client/src/app/grid/grid.component.ts:289-312 | Decoding a snapshot, separated by "\r\n" or by "!", paints each listed intersection with its mark, skips the header, and leaves every other cell unchanged |
| BoardView.StoneCells.PaintLine | Client/src/app/grid/grid.component.ts:299-310 | The cells after one loop iteration are ApplyLine of the cells before |
| BoardView.StoneCells.Decode | Client/src/app/replay-screen/replay-screen.component.ts:103-123 | The cells after the loop are DecodeSnapshot of the cells before, stopping at the first TypeError |
| Grid.JsRem | Client/src/app/grid/grid.component.ts:113 | The dividend minus the divisor times the quotient rounded toward zero: in [0, b) for a non-negative dividend, where it is Dafny's remainder, and in (-b, 0] for a negative one |
| Grid.TimerText | Client/src/app/grid/grid.component.ts:110-117 | "NaN:NaN" exactly when the count is no number |
| Grid.MsToTimer | Client/src/app/grid/grid.component.ts:109-118 | "NaN:NaN" exactly when Number() of the text is NaN |
| Grid.MsToTimerParts | Client/src/app/grid/grid.component.ts:109-118 | A non-negative count shows whole minutes (at least two digits), ":", and the remaining seconds, below 60 and exactly two digits |
| Grid.UnderOneSecond | Client/src/app/grid/grid.component.ts:109-118 | Less than a second shows "00:00" |
| Grid.HundredMinutes | Client/src/app/grid/grid.component.ts:114 | The minutes are not cut to two digits: 100 minutes show "100:00" |
| Grid.NegativeCount | Client/src/app/grid/grid.component.ts:111-115 | A negative count keeps JavaScript's negative remainder: -61 seconds show "-2:-1" |
| Grid.NotANumber | Client/src/app/grid/grid.component.ts:110-116 | A text that is not a number shows "NaN:NaN" |
| Grid.CaptureFields | Client/src/app/grid/grid.component.ts:331-340 | Each shown count is one ";"-separated field of the captures text, so neither holds a ";" |
| Grid.CaptureFieldsRoundTrip | Client/src/app/grid/grid.component.ts:331-340 | From "{a};{b}", a black player is shown b as their own count and a as the opponent's; any other colour sees them the other way round |
| Grid.CaptureFieldsWithoutSeparator | Client/src/app/grid/grid.component.ts:335-336 | A captures text without ";" shows "undefined" as the black player's own count |
| Grid.GridView.constructor | Client/src/app/grid/grid.component.ts:128-141 | The size starts at 0 |
| Grid.GridView.OnInit | Client/src/app/grid/grid.component.ts:157-160 | The size is Number() of the route's size parameter |
| Grid.GridView.UpdateTimers | Client/src/app/grid/grid.component.ts:74-83 | Both clocks show MsToTimer of the decimal text of their millisecond counts |
| Grid.GridView.UpdateCaptures | Client/src/app/grid/grid.component.ts:331-346 | Both counters show "Prises : " followed by the count for their side |
| Grid.GridView.UpdateBoard | Client/src/app/grid/grid.component.ts:289-312 | The cells become DecodeSnapshot of the reported board with "\r\n" line breaks |
| Grid.GridView.Update | Client/src/app/grid/grid.component.ts:38-66 | Updates the clocks when their containers exist and the board when its container exists; updates the counters only when theirs exist, the captures text is not empty, and the board did not throw |
| Grid.GridView.GetSize | Client/src/app/grid/grid.component.ts:150-152 | One below the size, NaN when the size is not a number |
| Grid.GetSizeScenario | Client/src/app/grid/grid.component.ts:150-152 | For a 19-line board the largest coordinate is 18 |
| Replay.ReplayScreen.constructor | Client/src/app/replay-screen/replay-screen.component.ts:35-48 | Cursor 0, no states, no counter elements |
| Replay.ReplayScreen.BindCounters | Client/src/app/replay-screen/replay-screen.component.ts:177-183 | Both counter elements are known afterwards |
| Replay.ReplayScreen.LoadGameStates | Client/src/app/replay-screen/replay-screen.component.ts:140-153 | The states are the old states followed by the fetched ones, in order |
| Replay.ReplayScreen.UpdateCapturedCounters | Client/src/app/replay-screen/replay-screen.component.ts:65-70 | With both elements known, both counters show "Prises : " and their count; otherwise nothing changes |
| Replay.ReplayScreen.DisplayState | Client/src/app/replay-screen/replay-screen.component.ts:97-124 | An index with no state fails and changes nothing; otherwise the counters show the state's counts and the cells become DecodeSnapshot of its board with "!" line breaks |
| Replay.ReplayScreen.NextState | Client/src/app/replay-screen/replay-screen.component.ts:72-77 | Below the last state, the cursor advances and that state is shown: both counter texts (when their elements are known) and the cells; at the last state, or when the cursor is NaN, the cursor, the counters and the cells are unchanged; a cursor on a state stays on one |
| Replay.ReplayScreen.PreviousState | Client/src/app/replay-screen/replay-screen.component.ts:79-84 | Above 0, the cursor steps back and that state is shown, counters and cells, failing with counters and cells unchanged exactly when no state is there; otherwise the cursor, the counters and the cells are unchanged |
| Replay.ReplayScreen.MoveToState | Client/src/app/replay-screen/replay-screen.component.ts:86-95 | As written: the cursor becomes Number(input) - 1 whatever that is, the state (counters and cells) is shown only when it exists and the counters and cells are unchanged otherwise, and the input is cleared unless showing the state stopped on a missing cell |
| Replay.ReplayScreen.MoveToStateChecked | Client/src/app/replay-screen/replay-screen.component.ts:86-95 | As intended: the cursor moves only to an existing state, which is then shown, counters and cells; otherwise the cursor, the counters and the cells are unchanged; a cursor on a state stays on one; the input is cleared unless showing the state stopped on a missing cell |
| Replay.ReplayScreen.HandleKey | Client/src/app/replay-screen/replay-screen.component.ts:56-61 | ArrowRight, ArrowLeft and Enter keep a cursor that is on a state on one and never show a missing state; the arrows keep the input; any other key keeps the cursor, the input, the counters and the cells |
| Replay.MoveToStateEscapes | Client/src/app/replay-screen/replay-screen.component.ts:86-95 | With two states, entering 9 leaves the cursor on no state, and ArrowLeft then fails on the missing state 7 |
| Replay.MoveToStateCheckedStays | Client/src/app/replay-screen/replay-screen.component.ts:86-95 | The same inputs under the corrected Enter keep the cursor on a state |
| Text.SplitJoin | Server/Server/WebSocket/Server.cs:152-155 | Splitting the join of separator-free pieces gives the pieces back |
| Text.JoinSplit | Client/src/app/grid/grid.component.ts:291 | Joining the pieces of a split with the same separator gives the text back |
| Text.ParseBounded | Server/Server/WebSocket/Strategy/CreateGameStrategy.cs:33 | Convert.ToInt16/ToInt32: after trimming white space, an optional sign and digits within the type's range; anything else fails |
| Text.ParseBoundedOfPadded | Server/Server/WebSocket/Strategy/CreateGameStrategy.cs:33 | An in-range integer's decimal text, with any white space around it, reads back as that integer |
| Text.NumberOf | Client/src/app/grid/grid.component.ts:110 | Number(): "" is 0, a signed decimal is that integer, and anything else is NaN |
| Text.NumberOfIntToString | Client/src/app/grid/grid.component.ts:77-79 | Number() reads an integer's decimal text back as that integer |
| Text.PadStart | Client/src/app/grid/grid.component.ts:114-115 | padStart: the text is kept at the right end, filled on the left up to the width, and never cut |
| Text.PadStartZerosKeepsValue | Client/src/app/grid/grid.component.ts:114-115 | Zero padding keeps a digit string's value |

## Left out

- Sockets, threads, the accept loop, byte decoding of frames, and `ProceedHandshake`/`BuildHandShake`: these are I/O. A frame is modelled by its text or its close code.
- `TreatMessage`'s use of `Interpreter.Interpret`: the interpreter is not part of this model. Its response text is a parameter.
- `GameLogic`, `GameBoard`'s own code, `ChineseScoreRule`/`JapaneseScoreRule` and `TimerManager` are not part of this model. The score pair and the clock reading are parameters, and the end of a game is the rules engine's double-pass condition over the forwarded calls.
- `Session.Game.PlaceStone`: the rules engine's verdict on a stone is a parameter. A rejected stone is modelled as an exception that leaves the engine as it was, so it neither resets nor extends the run of passes; the clocks were already switched. Which moves the engine rejects (off the grid, occupied, ko, suicide) is not modelled.
- `Session.Game.TestWin`: only the double-pass end is modelled. Resignation, timeout and disconnection ends belong to the rules engine, which is not part of this model.
- `Game.StringifyGameBoard` and `BoardSerializer` are not part of this model. `BoardView.EncodeSnapshot` is a reference encoder of the line format the clients decode.
- The database (`GameDAO.InsertGame`, `GetUserByToken`, `UpdateEloWinnerLooser`) is not modelled. Users by token are a map parameter; Elo changes are recorded as (winner, loser) pairs, and their arithmetic is not modelled.
- `WebSocketServer.Server.StartGame`: for an unknown token the source stores the database's null into the seat's user, and the null is dereferenced when the start messages are built. The model keeps the seat's previous user instead of null; it still looks up seat 2 before it fails, as the source does. It requires that the map returns, for each token, a user with that token.
- `Goban.Board.GetStone`, `Goban.Board.GetNeighbors` and `Goban.Board.PlaceStone` return `Stone` values. The C# board hands out its own `Stone` objects, which callers can alias and change; that sharing is not modelled.
- `Text.ParseBounded`: .NET's parser also ignores trailing NUL characters; the model trims only the white space characters U+0009 to U+000D and U+0020.
- `WebSocketServer.Server.DisconnectClient`: requires that each id names its own game object, which `Registry.Execute` preserves. Concurrent changes to the dictionary while it is enumerated are not modelled.
- `Registry.Execute`: a negative size is assumed to fail when the board is allocated (`GameBoard` is not part of this model). Nothing changes in that case.
- `Session.Game.PlaceStone`: the elapsed time is modelled as a whole number of milliseconds. Fractional `TotalMilliseconds` values and their culture-dependent formatting are not.
- JavaScript `Number()` is modelled only for the empty string and for signed decimal integers. Whitespace, decimals, exponents, hexadecimal and `Infinity` are not, and neither are floating-point rounding or the limits of double precision.
- The colour map's inherited prototype keys (such as "constructor") are not modelled; the map is exactly its three entries.
- `updateHover`, `updateOpponentPseudo`, `displayPlayersInformations`, `hideGameElements`, `ngOnDestroy` and the avatar and name fields only restyle or fill in page elements. They are user interface, outside the game core.
- `Replay.ReplayScreen.BindCounters`: which element receives black's and which white's count depends on the player's seat. The model keeps the two counter texts by colour.

## Findings

| source | as written | input that shows it | evidently intended | confidence | as-written member | corrected member |
|---|---|---|---|---|---|---|
| Client/src/app/replay-screen/replay-screen.component.ts:88-89 | `moveToState` stores `Number(input) - 1` as the cursor before checking that a state exists there | 2 states, move input "9", Enter, then ArrowLeft: the cursor is 8, then 7, and `displayState(7)` reads `states[7].CapturedBlack()` of undefined (a TypeError); a non-numeric input leaves the cursor NaN and both arrows dead | the cursor moves only to an existing state | not executed | Replay.ReplayScreen.MoveToState, Replay.MoveToStateEscapes | Replay.ReplayScreen.MoveToStateChecked, Replay.ReplayScreen.HandleKey, Replay.MoveToStateCheckedStays |
