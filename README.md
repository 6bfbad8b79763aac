# xchess coordinator core, modelled in Dafny

xchess runs a chess game between a physical sensing board and players. A
player is either a human at the board or a rotating ensemble of UCI engines.
This project models the coordinator's core:

- `utils.dfy` (module `Utils`) covers the board-string utilities.
  - A raw board is a 64-character string, rank 8 first. `.` marks an empty
    square and a piece letter marks an occupied one.
  - It models FEN placement to raw and back, the ASCII picture, the colour
    tests and the default start position.
- `chess_rules.dfy` (module `ChessRules`) is the vocabulary shared with the
  rules library: colours, pieces, square names, move records, and a
  position with its history.
  - Legality is a parameter, the `Oracle`. A legal move is applied and
    pushed on the history; an undo pops it.
- `player.dfy` (module `Players`) is the base `Player` class.
  - It models the sensed-move listener, pause and resume, reset, the
    interrupt latch, waiting for a move, and the turn clock.
  - Each method is proved equal to a pure step function on `PlayerState`.
    The properties are proved about those step functions.
- `user_player.dfy` (module `UserPlayers`) is the human player. Its turn
  does not clear the interrupt latch.
- `engine_player.dfy` (module `EnginePlayers`) is the engine player.
  - It models the ensemble shuffle, a permutation driven by the random picks.
  - It models the rotation of the engine that answers, the rewind on take
    back, the display name, and take-back gesture detection.
- `game_logic.dfy` (module `GameLogic`) holds the pure parts of the game.
  - The expected board layout for a sync, and when the physical board is in
    sync with it, including the en-passant square.
  - The move-string parse and the end-of-game verdict.
  - The take-back gesture, and the replay of a space-separated move list
    whose `undo_N` tokens undo N moves.
- `chess_game.dfy` (module `ChessGame`) is the `Game` class.
  - It covers the interrupt protocol (arm, check, clear) and the board-ready
    and board-sync waits.
  - It covers take back, new game, the play dispatch, a player's turn with
    its illegal-move retry, and the handling of a played move.
  - Asynchronous continuations (`process.nextTick`, event callbacks, awaited
    promises) are modelled as entries appended to a `tasks` queue.
  - Calls into the board are appended to `calls`, and events emitted to
    observers are appended to `notices`.
  - Most methods are proved equal to a step function on `GameState`, whose
    properties are lemmas. The loops that interrupt the players, undo moves and
    replay a move list, and the seating of the players, state their effect
    directly in their contracts.

## Model

| member | source | states |
|---|---|---|
| Utils.FenToRaw | lib/utils.js:5-25 | the raw board is the FEN's cells (digits expanded to dots, `/` skipped) cut off once 64 cells are written, with holes after a short FEN |
| Utils.FilledStore | lib/utils.js:9-19 | writing one more cell stores it at the next index of the 64-slot array |
| Utils.ScanBounds | lib/utils.js:11-22 | the scan stops only at the 64-cell limit: it yields a prefix of the full expansion, the whole expansion while under 64, and at most 71 cells |
| Utils.FenCellsCap | lib/utils.js:11-22 | fenToRaw's cells are a prefix of the expansion, below 72, equal to it when fewer than 64, and at least 64 when the expansion has 64 |
| Utils.ScanExact | lib/utils.js:11-22 | a FEN that expands to at most 64 cells is copied whole |
| Utils.ScanConcat | lib/utils.js:11-22 | scanning a concatenation is scanning its parts in turn |
| Utils.ExpandConcat | lib/utils.js:13-20 | the expansion of a concatenation is the concatenation of expansions |
| Utils.CellsOfLength | lib/utils.js:13-20 | one FEN character expands to at most 8 cells |
| Utils.RawToFen | lib/utils.js:27-58 | the loop builds exactly the placement: eight rank segments joined by `/` |
| Utils.RankTextExpands | lib/utils.js:35-50 | a rank's text expands back to its dots and pieces |
| Utils.RankTextRuns | lib/utils.js:37-50 | a rank's text never has two digits in a row: empty runs are merged |
| Utils.RankTextSize | lib/utils.js:35-50 | a rank's text has no `/`, is non-empty, and is no longer than its pieces plus one digit |
| Utils.LayoutRanksPlain | lib/utils.js:35-46 | a well-formed board's ranks contain no digits or slashes |
| Utils.ExpandFenUpTo | lib/utils.js:32-55 | the FEN for the first r ranks expands to the first 8r cells |
| Utils.SegmentShape | lib/utils.js:32-55 | each rank segment is 1 to 8 characters, has no `/` and no adjacent digits, and expands to its rank |
| Utils.PlacementShape | lib/utils.js:32-55 | the placement is the eight segments joined by `/`, each of the shape above |
| Utils.RoundTrip | lib/utils.js:5-58 | fenToRaw(rawToFen(raw)) gives back every well-formed raw board |
| Utils.PiecesOnlyRank | lib/utils.js:35-46 | a rank without empty squares is written as its letters |
| Utils.EmptyRunText | lib/utils.js:37-50 | a run of empty squares is written as one digit |
| Utils.DefaultRanks | lib/utils.js:81 | the default raw board is well formed with the standard ranks |
| Utils.DefaultBlackSegments | lib/utils.js:81-82 | the default FEN's two black ranks are the default raw board's ranks 8 and 7 |
| Utils.DefaultWhiteSegments | lib/utils.js:81-82 | the default FEN's two white ranks are the default raw board's ranks 2 and 1 |
| Utils.DefaultEmptySegments | lib/utils.js:81-82 | the four middle ranks are written `8` |
| Utils.DefaultsAgree | lib/utils.js:81-82 | the default FEN's placement and the default raw board are each other's conversions |
| Utils.IsStartPos | lib/utils.js:83 | a start-position FEN expands to the default raw board |
| Utils.IsWhite | lib/utils.js:84 | a white piece is not empty; upper-case letters are white, lower-case are not |
| Utils.IsEmpty | lib/utils.js:75 | an empty cell never holds a piece letter |
| Utils.IsBlack | lib/utils.js:85 | a black piece is not empty; lower-case letters are black, upper-case are not |
| Utils.RawToAscii | lib/utils.js:60-73 | eleven lines: border, eight rank lines, border, file legend |
| Utils.SpacedAt | lib/utils.js:65 | cells joined by two spaces sit three characters apart |
| Utils.AsciiCells | lib/utils.js:64-67 | rank line i shows rank number 8-i and cell k of that rank at column 5+3k |
| ChessRules.Symbol | lib/chess-game.js:163-179 | white pieces print upper case, black pieces lower case |
| ChessRules.SquareName | lib/chess-game.js:336-349 | a square's name is a file a-h and a rank 1-8 |
| ChessRules.SquareIndex | lib/chess-game.js:336-349 | the index of a square name is -1 exactly when no square has that name, and otherwise names it back |
| ChessRules.SquareIndexInverts | lib/chess-game.js:336-349 | naming a square and looking it up gives it back |
| ChessRules.Apply | lib/chess-game.js:278-297 | a move is applied and recorded exactly when the rules accept it; the turn passes |
| ChessRules.Undo | lib/chess-game.js:375 | undo pops the last history entry, and does nothing on an empty history |
| ChessRules.UndoReversesApply | lib/chess-game.js:375 | undoing a legal move restores the position and returns the move's record |
| ChessRules.LastMove | lib/chess-game.js:478-489 | there is a last move exactly when the history is non-empty |
| Players.OnMoveStep | lib/player.js:43-66 | a paused player drops moves; the take-back check is consulted iff not paused, not in turn and take back allowed; otherwise the move is queued or resolves the open wait |
| Players.MoveQueuedOrDelivered | lib/player.js:43-66 | an unpaused sensed move is never lost: queued or delivered |
| Players.PauseStep | lib/player.js:74-76 | pause sets the pause flag only |
| Players.ResumeStep | lib/player.js:69-72 | resume clears the pause flag and the latched interrupt |
| Players.ResetStep | lib/player.js:78-85 | reset pauses, clears the latch and queue, and answers an open wait with the reset sentinel |
| Players.InterruptStep | lib/player.js:87-94 | an interrupt answers an open wait, or latches when there is none |
| Players.WaitMoveStep | lib/player.js:96-110 | a latched interrupt is returned at once; otherwise the queue is dropped (a detect is requested when it was non-empty) and a wait opens |
| Players.StartTurnStep | lib/player.js:138-142 | starting a turn marks it and records its start time |
| Players.EndTurnStep | lib/player.js:144-148 | ending a turn charges its duration to the remaining time |
| Players.TurnCostsItsDuration | lib/player.js:138-148 | a whole turn costs exactly end minus start, whatever happened in between |
| Players.LatchedInterruptReturned | lib/player.js:87-99 | an interrupt raised outside a wait is returned by the next wait |
| Players.ResumeClearsLatch | lib/player.js:69-110 | after resume the next wait blocks |
| Players.NonEmpty | lib/player.js:115 | the filter keeps exactly the non-empty names of the input, none added |
| Players.FullName | lib/player.js:112-117 | the name is first and last joined by a space, either alone, or `player` when both are empty |
| Players.Player.MinTime | lib/player.js:33-35 | the minimum turn time is positive and never above the engine's 10 ms threshold |
| Players.Player.constructor | lib/player.js:4-18 | a new player is idle, unpaused, and has its total time remaining |
| Players.Player.Name | lib/player.js:112-117 | the name is never empty |
| Players.Player.OnBoardMove | lib/player.js:43-66 | the listener's state change is OnMoveStep |
| Players.Player.Resume | lib/player.js:69-72 | the state change is ResumeStep |
| Players.Player.Pause | lib/player.js:74-76 | the state change is PauseStep |
| Players.Player.Reset | lib/player.js:78-85 | the state change is ResetStep |
| Players.Player.Interrupt | lib/player.js:87-94 | the state change is InterruptStep |
| Players.Player.WaitMove | lib/player.js:96-110 | the state change and immediate answer are WaitMoveStep |
| Players.Player.StartTurn | lib/player.js:138-142 | the state change is StartTurnStep |
| Players.Player.EndTurn | lib/player.js:144-148 | the state change is EndTurnStep |
| Players.Player.YourTurnBegin | lib/player.js:127-130 | a turn starts and waits for a move |
| Players.Player.YourTurnFinish | lib/player.js:130-135 | the move is returned, the latch cleared and the turn ended |
| UserPlayers.UserPlayer.constructor | lib/user-player.js:6-8 | a user player starts idle and does not allow take back |
| UserPlayers.UserPlayer.YourTurnBegin | lib/user-player.js:10-13 | a user turn starts and waits for a move |
| UserPlayers.UserPlayer.YourTurnFinish | lib/user-player.js:14-22 | the move is returned and the turn ended, the latch kept |
| UserPlayers.UserTurn | lib/user-player.js:10-23 | a user turn ends the turn, charges its duration and keeps the latch |
| UserPlayers.BaseTurn | lib/player.js:127-136 | a base turn ends the turn, charges its duration and clears the latch |
| UserPlayers.UserLatchPersists | lib/user-player.js:10-23 | a latched interrupt answers every later user turn, but only one base turn |
| EnginePlayers.Swap | lib/engine-player.js:28-32 | a swap keeps the length |
| EnginePlayers.SwapPermutes | lib/engine-player.js:28-32 | a swap is a permutation |
| EnginePlayers.ShuffleUpTo | lib/engine-player.js:26-33 | each shuffle prefix keeps the length |
| EnginePlayers.ShufflePermutes | lib/engine-player.js:26-33 | every prefix of the shuffle is a permutation |
| EnginePlayers.ShuffleIsPermutation | lib/engine-player.js:25-34 | the shuffled ensemble is a permutation of the given one |
| EnginePlayers.Shuffle | lib/engine-player.js:25-34 | the shuffle keeps the ensemble's size and leaves an ensemble of one untouched |
| EnginePlayers.NextIndex | lib/engine-player.js:52-57 | the next engine is the following one modulo the ensemble, or the same on a retry or with one engine |
| EnginePlayers.AfterTurns | lib/engine-player.js:52-57 | the rotation stays inside the ensemble |
| EnginePlayers.AfterTurnsCompose | lib/engine-player.js:52-57 | a+b turns are a turns then b turns |
| EnginePlayers.RotationAdvances | lib/engine-player.js:52-57 | before wrapping, t turns move the index by t |
| EnginePlayers.RotationCycles | lib/engine-player.js:52-57 | the rotation wraps to 0 after the last engine and returns after n turns |
| EnginePlayers.RotationFromStart | lib/engine-player.js:52-57 | from the first engine, turn t uses engine t mod n |
| EnginePlayers.RotationModulo | lib/engine-player.js:52-57 | from any engine ix, turn t uses engine (ix+t) mod n |
| EnginePlayers.ChosenMove | lib/engine-player.js:58 | the pick move is played when present, else the best move |
| EnginePlayers.EngineNames | lib/engine-player.js:16-19 | the names listed are the ensemble's, in order |
| EnginePlayers.EnginePlayer.constructor | lib/engine-player.js:8-14 | the engine player allows take back, holds the shuffled ensemble and starts at engine 0 |
| EnginePlayers.EnginePlayer.ShuffleEngines | lib/engine-player.js:25-34 | the in-place loop leaves the array as the shuffle of its old contents |
| EnginePlayers.EnginePlayer.Name | lib/engine-player.js:16-19 | the name is the player name, then ` (`, then the engine names joined by commas, then `)` |
| EnginePlayers.EngineListReadsBack | lib/engine-player.js:16-19 | the comma-joined engine list splits back into the engine names, in order, when no name holds a comma |
| EnginePlayers.EnginePlayer.YourTurn | lib/engine-player.js:36-70 | the current engine answers; the index advances unless retrying; the last index is kept; the turn starts and is not ended |
| EnginePlayers.EnginePlayer.YourTurnEndingTurn | lib/engine-player.js:36-70 | the same turn, ending the turn and charging its duration |
| EnginePlayers.EnginePlayer.TakeBack | lib/engine-player.js:72-75 | take back rewinds to the engine of the last turn |
| EnginePlayers.TakebackGestureIgnoredAsWritten | lib/engine-player.js:59-69 | after an engine turn as written, the player is still in turn, no time is charged, and a sensed move never consults the take-back check |
| EnginePlayers.TakebackGestureCheckedWhenEnded | lib/engine-player.js:59-69 | with the turn ended, the gesture is checked and the turn's duration is charged |
| GameLogic.Expected | lib/chess-game.js:163-179 | the expected board has 64 cells |
| GameLogic.ExpectedLayout | lib/chess-game.js:163-179 | the nested loop builds the expected board |
| GameLogic.ByColor | lib/chess-game.js:181-184 | the colour view keeps the board's length |
| GameLogic.SymbolColour | lib/chess-game.js:163-179 | a piece's letter is white or black exactly as its colour |
| GameLogic.ExpectedUncoloured | lib/chess-game.js:163-179 | without a colour the expected board is the position's layout |
| GameLogic.ExpectedIsColourView | lib/chess-game.js:163-184 | with a colour the expected board is the layout seen by that colour |
| GameLogic.ByColorIdempotent | lib/chess-game.js:181-184 | the colour view of a colour view is unchanged |
| GameLogic.ShowingPositionIsSync | lib/chess-game.js:181-184 | a physical board showing the position is in sync |
| GameLogic.SyncIsColourAgreement | lib/chess-game.js:181-184 | without en passant, sync means the boards agree in that colour's view |
| GameLogic.IsSync | lib/chess-game.js:181-184 | a board in sync has the expected board's size, and after an en-passant capture the captured pawn's square is on the board and empty |
| GameLogic.EpBlocksSync | lib/chess-game.js:181-184 | an occupied captured-pawn square blocks the sync |
| GameLogic.EpSquareBehind | lib/chess-game.js:336-349 | the captured pawn sits one rank behind the target square |
| GameLogic.EpFor | lib/chess-game.js:336-349 | the captured pawn's square exists exactly when its index is on the board, and its name reads back as that index |
| GameLogic.EpCaptureSquareExists | lib/chess-game.js:336-349 | a capture onto rank 6 (white) or 3 (black) names the pawn on rank 5 or 4 |
| GameLogic.Substr | lib/chess-game.js:280-285 | substr returns at most the requested length |
| GameLogic.ParseMoveText | lib/chess-game.js:280-285 | from, to and promotion are the first 2, next 2 and next 1 characters of the move text, each as many as the text still has |
| GameLogic.ParseMoveRoundTrip | lib/chess-game.js:280-285 | a written move parses back to its parts |
| GameLogic.SensedTextReadsBack | lib/chess-game.js:280-291 | a sensed move written as text parses to the same move |
| GameLogic.CheckEndGame | lib/chess-game.js:354-369 | the game ends exactly on a verdict, in the order draw, stalemate, threefold, checkmate; checkmate is won by the side not to move |
| GameLogic.TakebackGestureReverses | lib/chess-game.js:478-489 | the gesture is exactly the side that made the last move moving that piece back from its target to its source |
| GameLogic.IsTakebackGesture | lib/chess-game.js:482-484 | the gesture is by the side that made the last move, from its target square back to its source square |
| GameLogic.Split | lib/chess-game.js:65 | split yields at least one part, none holding the separator |
| GameLogic.SplitJoin | lib/chess-game.js:65 | joining the split parts gives back the string |
| GameLogic.SplitTwo | lib/chess-game.js:65 | two separated tokens split into the two |
| GameLogic.SplitNone | lib/chess-game.js:65 | a string without the separator is one part |
| GameLogic.SplitAfter | lib/chess-game.js:65 | a separator after text without one ends the first part |
| GameLogic.JoinSplit | lib/chess-game.js:65 | splitting parts joined by a separator they lack gives the parts back |
| GameLogic.DigitRun | lib/chess-game.js:69 | the leading digit run is maximal |
| GameLogic.NatText | lib/chess-game.js:69 | a number's text is all digits |
| GameLogic.NatTextValue | lib/chess-game.js:69 | a number's text reads back as that number |
| GameLogic.DigitRunStops | lib/chess-game.js:69 | the digit run stops at the first non-digit |
| GameLogic.ParseIntReadsNatText | lib/chess-game.js:69 | parseInt reads a number's text back, ignoring what follows |
| GameLogic.ParseIntRejects | lib/chess-game.js:68 | text starting without a digit or sign is not a number |
| GameLogic.ParseInt | lib/chess-game.js:68 | a number is read only from text starting with a digit or a sign, and is not negative without a minus sign |
| GameLogic.UndoTimes | lib/chess-game.js:68 | an entry without `_` undoes nothing; otherwise the count is the number after the first `_` |
| GameLogic.UndoN | lib/chess-game.js:69-72 | k undos leave a history k entries shorter, or an empty one when it holds fewer; which entries remain is UndoNDropsLast |
| GameLogic.UndoNDropsLast | lib/chess-game.js:69-72 | k undos leave exactly the history without its last k entries, or an empty history when it holds fewer |
| GameLogic.UndoTokenCount | lib/chess-game.js:66-72 | `undo_k` is an undo token that undoes k moves |
| GameLogic.UndoLastEntry | lib/chess-game.js:65-77 | undoing after a legal replay returns the replay one move shorter |
| GameLogic.UndoNAfterLegal | lib/chess-game.js:65-77 | undoing k moves after a legal replay is the replay of all but the last k |
| GameLogic.ReplayWithUndo | lib/chess-game.js:65-77 | a move list ending in `undo_k` replays as the list without its last k moves |
| GameLogic.LegalReplayGrows | lib/chess-game.js:65-77 | a replay of legal moves adds one history entry per move |
| GameLogic.ReplayToken | lib/chess-game.js:66-75 | an undo entry never lengthens the history; an illegal move changes nothing; an entry adds at most one history entry |
| GameLogic.Replay | lib/chess-game.js:65-77 | a replay adds at most one history entry per entry |
| GameLogic.ReplayMoves | lib/chess-game.js:65-77 | an empty move list replays nothing, and a list without a space is one entry |
| ChessGame.CheckStep | lib/chess-game.js:507-521 | an armed interrupt is delivered once: the wait is cancelled and the resolve queued; a clear slot reports nothing |
| ChessGame.ClearStep | lib/chess-game.js:501-505 | clearing drops the interrupt |
| ChessGame.RaiseStep | lib/chess-game.js:523-541 | raising arms the interrupt, notifies a change, and schedules a check when idle |
| ChessGame.ResolutionsAppend | lib/chess-game.js:507-521 | queuing a resolve adds one resolution |
| ChessGame.ChecksAfterDelivery | lib/chess-game.js:507-521 | checks after delivery change nothing |
| ChessGame.InterruptResolvesOnce | lib/chess-game.js:507-541 | however many checks follow a raise, the interrupt is resolved exactly once |
| ChessGame.ChecksAfterInit | lib/chess-game.js:507-521 | the first check after arming delivers |
| ChessGame.IdleInterruptSchedulesCheck | lib/chess-game.js:523-541 | an interrupt raised while idle schedules a check that delivers it |
| ChessGame.ReadyAttempt | lib/chess-game.js:96-128 | the board is ready iff no interrupt and it shows the wanted layout; an interrupt cancels the wait |
| ChessGame.WaitReadyStep | lib/chess-game.js:96-128 | a ready board proceeds at once; otherwise the wait is registered; a board that differs is never ready; the position is untouched |
| ChessGame.InterruptedReadyWaitRegisters | lib/chess-game.js:96-128 | an interrupted ready wait is registered and the interrupt delivered |
| ChessGame.SyncStartStep | lib/chess-game.js:161-272 | a board already in sync commits the expected layout with the ep index; otherwise the sync wait is registered |
| ChessGame.SyncCheckStep | lib/chess-game.js:231-265 | a later board change finishes the sync iff no interrupt and in sync; an interrupt ends the wait |
| ChessGame.ShownPositionSyncs | lib/chess-game.js:161-216 | a board showing the position syncs at once |
| ChessGame.UndoTwo | lib/chess-game.js:375 | take back undoes up to two moves, popping them from the history |
| ChessGame.TakebackUndoesTwoMoves | lib/chess-game.js:375 | two legal moves are undone, restoring the position |
| ChessGame.ContinueStep | lib/chess-game.js:377-383 | continuing resets the board to the position and schedules play |
| ChessGame.TakebackStep | lib/chess-game.js:371-409 | take back undoes up to two moves; with none it continues at once; otherwise it announces the moves taken back and waits for the board to show the rewound position, proceeding at once when it already does |
| ChessGame.LayoutWellFormed | lib/chess-game.js:78-79 | a position's layout is a well-formed raw board |
| ChessGame.NewGameStep | lib/chess-game.js:47-86 | a new game clears the interrupt, bumps the game id, replays the moves and records the start FEN |
| ChessGame.RestartStep | lib/chess-game.js:47-77 | the rules state is the replay of the move list |
| ChessGame.NewGameStarts | lib/chess-game.js:47-86 | the start FEN reads back as the board, and play starts iff the board shows it |
| ChessGame.FirstLegal | lib/chess-game.js:322-331 | the first legal answer, every earlier one illegal, or none |
| ChessGame.Repeat | lib/chess-game.js:322-331 | n copies of a notice |
| ChessGame.TurnPlaysFirstLegal | lib/chess-game.js:310-352 | a turn plays the first legal answer after one illegal-move notice per earlier answer |
| ChessGame.TurnStep | lib/chess-game.js:310-352 | a turn only adds notices; it leaves the position alone unless it plays, and a played move adds one history entry and passes the turn |
| ChessGame.TurnWithoutLegalAnswer | lib/chess-game.js:322-331 | with no legal answer, every answer is reported illegal and nothing is played |
| ChessGame.RepeatCons | lib/chess-game.js:322-331 | one more notice prepended is one more copy |
| ChessGame.TurnInterrupted | lib/chess-game.js:315-318 | an interrupted turn returns the interrupt and leaves the position alone |
| ChessGame.PlayStep | lib/chess-game.js:411-420 | play dispatches a take-back interrupt to the take-back wait after clearing it, clears a reset interrupt and does nothing else, or waits for the side to move |
| ChessGame.AfterTurnStep | lib/chess-game.js:448-456 | an interrupted turn replays; otherwise the played move's board sync starts, committing at once when the board already agrees |
| ChessGame.HandleMoveStep | lib/chess-game.js:428-446 | after the sync play continues unless the game ended, which is announced |
| ChessGame.Game.constructor | lib/chess-game.js:36-45 | a new game is idle with no interrupt |
| ChessGame.Game.CheckInterrupt | lib/chess-game.js:507-521 | the state change is CheckStep |
| ChessGame.Game.ClearInterrupt | lib/chess-game.js:501-505 | the state change is ClearStep |
| ChessGame.Game.InterruptPlayers | lib/chess-game.js:491-499 | every player is interrupted, and paused when asked |
| ChessGame.Game.Interrupt | lib/chess-game.js:523-541 | the state change is RaiseStep and each player is interrupted |
| ChessGame.Game.Reset | lib/chess-game.js:543-545 | a reset interrupt to the game and every player |
| ChessGame.Game.TakeBack | lib/chess-game.js:472-476 | take back raises its interrupt, unless a ready wait is pending |
| ChessGame.Game.CheckTakeback | lib/chess-game.js:478-489 | a take back is raised exactly on the reversing gesture, pausing and interrupting every player, unless a ready wait is pending, when nothing changes |
| ChessGame.WantsTakeback | lib/chess-game.js:478-484 | a take back is wanted only when a last move exists and the gesture is by the side that made it |
| ChessGame.Game.WaitReady | lib/chess-game.js:96-128 | the state change is ReadyAttempt |
| ChessGame.Game.WaitForBoardReady | lib/chess-game.js:96-128 | the state change is WaitReadyStep |
| ChessGame.Game.OnReadyBoardChange | lib/chess-game.js:110-124 | a board change retries the registered ready wait |
| ChessGame.Game.SyncBoard | lib/chess-game.js:161-272 | the state change is SyncStartStep |
| ChessGame.Game.CheckSync | lib/chess-game.js:231-265 | the state change is SyncCheckStep |
| ChessGame.Game.ContinuePlay | lib/chess-game.js:377-383 | every player is resumed and play continues |
| ChessGame.Game.WaitForTakeBack | lib/chess-game.js:371-409 | the state change is TakebackStep |
| ChessGame.Game.UndoRepeatedly | lib/chess-game.js:66-72 | the loop undoes the parsed count of moves, none when it is not positive |
| ChessGame.Game.ReplayMoveList | lib/chess-game.js:65-77 | the loop replays the whole move list |
| ChessGame.Game.ReplayEntry | lib/chess-game.js:66-75 | one move-list entry: `undo_<n>` takes back n moves, any other entry is applied as a move |
| ChessGame.Game.BeginGame | lib/chess-game.js:58-64 | the game id advances, the FEN defaults to the standard one, the move list is stored, the board is reset and the rules engine holds the loaded position |
| ChessGame.Game.Restart | lib/chess-game.js:47-77 | the state change is RestartStep |
| ChessGame.Game.NewGame | lib/chess-game.js:47-86 | the state change is NewGameStep |
| ChessGame.Game.SeatPlayers | lib/chess-game.js:461-470 | the players are seated, the board reset and play scheduled |
| ChessGame.Game.Play | lib/chess-game.js:411-420 | the state change is PlayStep; the players are resumed when a take back found no move to undo, and are otherwise untouched |
| ChessGame.Game.WaitPlayerTurn | lib/chess-game.js:310-352 | the retry loop's result is TurnStep |
| ChessGame.Game.AfterTurn | lib/chess-game.js:448-456 | the state change is AfterTurnStep |
| ChessGame.Game.HandleMove | lib/chess-game.js:428-446 | the state change is HandleMoveStep |

## Left out

- lib/engine-mgr.js is not part of this model. The UCI engine processes and their `position`/`go` exchange are replaced by the `GoResult` answer, passed in as a parameter.
- The chess rules library is a parameter. `Oracle` decides legality, the loaded start position is passed as `loaded`, and `Verdicts` carries its draw, stalemate, threefold and checkmate answers.
- Board events, listeners and the board-change debounce timer (lib/chess-game.js:251-262) are not modelled as concurrency. Each callback is a method the caller invokes, and a continuation is a `tasks` entry; the queue is not run.
- Logging, `makeVisualMoveAscii` and terminal colours are left out. They only print.
- `Date.now` is a `now` parameter. `Math.random` in the shuffle is the `picks` sequence.
- ChessGame.NewGameStep: `loaded` is the rules engine's position after `load` with the `initFen` argument as given, not defaulted (lib/chess-game.js:63-64). An omitted `initFen` reaches the rules engine as `undefined`. The defaulted FEN stored in the `initFen` field (line 60) is never read afterwards.
- readyForNewGame's construction of player objects is left out. `SeatPlayers` receives the two players.
- Players.Player.constructor: the source reads `playerInfo.totalTime` after defaulting a missing `playerInfo`, so a missing one would crash (lib/player.js:11-17). The model always takes a `PlayerInfo`.
- `_isCaptured` always answers false (lib/player.js:24-27), so its branch is omitted.
- The getters `firstName`, `lastName`, `getTurnRunningTime` and `getRemainingTime` only read fields, and are left out. The fields are in `PlayerState`.
- EnginePlayers.EnginePlayer.TakeBack: the source first calls `super.takeBack()`, which the base class does not define (lib/engine-player.js:72-75). The model performs only the index rewind.
- EnginePlayers.EnginePlayer.constructor: it requires a non-empty ensemble. With an empty one, the source's first engine is `undefined` and its first turn fails when it calls `go` on it (lib/engine-player.js:13, 46). A missing `engine` option is not an empty ensemble: `[].concat(undefined)` holds one `undefined` engine.
- Utils.RawToFen requires exactly 64 cells. The source would read `undefined` past a shorter array.
- Utils.IsWhite and Utils.IsBlack fold case for ASCII letters only. JavaScript's Unicode case mapping is not modelled.
- GameLogic.ParseInt covers an optional sign and leading decimal digits. Leading whitespace and the hexadecimal prefix of `parseInt` are not modelled.
- The physical board is modelled by its raw string. Its per-colour view (`stringByColor`) is `GameLogic.ByColor`, and `pieceByIndex` is the cell at that index, tested with `IsEmpty` inside `GameLogic.IsSync`.
- A move passed to `move` as an object is modelled by `GameLogic.SensedDesc` for sensed moves. Arbitrary objects and symbols are not modelled.
- Progress events emitted while waiting are reduced to the `notices` the model records.
- When an interrupt is raised again before the previous one is checked, the source overwrites the first promise's resolver. The model keeps one slot, so that lost resolver is not represented.

## Findings

| source | as written | input that shows it | evidently intended | confidence | as-written member | corrected member |
|---|---|---|---|---|---|---|
| lib/engine-player.js:59-69 | the engine's turn calls `endTurn` only when `minTime > 10`, and `minTime` is always 1 (lib/player.js:33-35), so the turn is never ended | any engine turn; afterwards the engine's own last move is moved back on the board (a sensed move of the engine's colour) | the turn ends, so the player is no longer in turn, the take-back gesture reaches `checkTakeback`, and the turn's time is charged | not executed | EnginePlayers.TakebackGestureIgnoredAsWritten | EnginePlayers.TakebackGestureCheckedWhenEnded |
