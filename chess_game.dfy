/**
 * The game coordinator (lib/chess-game.js).
 *
 * It keeps the rules engine's position, drives the two players turn by
 * turn, waits for the physical board to match the engine (at the start,
 * after each move and after a take-back), and lets a take-back or a reset
 * interrupt whatever it is waiting for. Callbacks scheduled for the next
 * tick are recorded in order in `tasks`; calls on the physical board in
 * `calls`; emitted events in `notices`. Reading the physical board is a
 * parameter (`physical`, its 64-cell layout).
 */
module ChessGame {
  import opened Wrappers
  import opened Utils
  import opened ChessRules
  import opened Players
  import opened GameLogic

  /** `_pendingState`. */
  datatype Pending = Idle | WaitBoardReady | WaitBoardSync | WaitPlayer(color: Color)

  /** `_interrupt`: false, the resolver of the pending `interrupt` call, or true once it was checked. */
  datatype InterruptSlot = Clear | Armed | Delivered

  /** What a board-ready wait goes on to do once the board matches. */
  datatype Purpose = StartGame | FinishTakeback

  /** Callbacks scheduled for the next tick. */
  datatype Task =
    | ResolveInterrupt        // resolve the promise `interrupt` awaits
    | RunCheckInterrupt       // `checkInterrupt`, scheduled by `interrupt` when nothing is pending
    | RunPlay                 // `play`
    | RunReady(purpose: Purpose)

  /** Calls on the physical board. */
  datatype BoardCall =
    | ResetBoard
    | ResetTo(raw: string)
    | Commit(color: Color, raw: string, epIndex: Option<int>)
    | EmitChanged

  /** Events emitted. */
  datatype Notice =
    | BoardReady(raw: string)
    | Ready
    | TakeBackStarted(moves: seq<MoveRecord>)
    | WaitingBoardSync
    | BoardSynced
    | IllegalMove(color: Color)
    | PlayerMoved(interrupted: bool)
    | GameOver(result: EndResult)

  /** The registered `checkSync` listener: what it compares the board with. */
  datatype SyncWait = SyncWait(color: Color, raw: string, ep: Option<EpInfo>)

  /** The registered `waitReady` listener. */
  datatype ReadyWait = ReadyWait(want: string, purpose: Purpose)

  /** How a board-sync wait ends: `undefined` or "interrupted". */
  datatype SyncOutcome = Synced | SyncInterrupted

  /** A player's move as handed to the game's `move`: text, or a move sensed on the board. */
  datatype MoveSource = Text(text: string) | Sensed(sensed: BoardMove)

  /** How `waitPlayerTurn` ends; `NoAnswer` when the player never answers again. */
  datatype TurnOutcome =
    | Interrupted(kind: InterruptKind)
    | Played(record: MoveRecord, ep: Option<EpInfo>)
    | NoAnswer

  /** What `play` does first. */
  datatype PlayStart = TookBack | ResetHandled | AwaitPlayer(color: Color)

  datatype GameState = GameState(
    rules: Position,              // the rules engine
    pending: Pending,
    slot: InterruptSlot,
    kind: Option<InterruptKind>,  // `_interruptType`
    gameId: nat,
    tasks: seq<Task>,
    calls: seq<BoardCall>,
    notices: seq<Notice>,
    syncWait: Option<SyncWait>,
    readyWait: Option<ReadyWait>,
    initFen: string,
    moves: string,
    startFen: string)

  /** An interrupt type is set exactly while the slot is not clear. */
  predicate Consistent(s: GameState) {
    s.slot == Clear <==> s.kind.None?
  }

  // ---------------------------------------------------------------------------
  // Interrupts
  // ---------------------------------------------------------------------------

  /**
   * `checkInterrupt`: report the interrupt type while one is raised; the
   * first check after raising also clears the pending state and schedules
   * the resolution of the raiser's promise.
   */
  function CheckStep(s: GameState): (r: (GameState, Option<InterruptKind>))
    ensures s.slot == Clear ==> r == (s, None)
    ensures s.slot != Clear ==> r.1 == s.kind && r.0.slot == Delivered
    ensures s.slot == Delivered ==> r.0 == s
    ensures s.slot == Armed ==> r.0 == s.(slot := Delivered, pending := Idle, tasks := s.tasks + [ResolveInterrupt])
    ensures Consistent(s) ==> Consistent(r.0) && (r.1.Some? <==> s.slot != Clear)
  {
    match s.slot
    case Clear => (s, None)
    case Delivered => (s, s.kind)
    case Armed => (s.(slot := Delivered, pending := Idle, tasks := s.tasks + [ResolveInterrupt]), s.kind)
  }

  function ClearStep(s: GameState): (r: GameState)
    ensures r.slot == Clear && r.kind.None? && Consistent(r)
    ensures r == s.(slot := Clear, kind := None)
  {
    s.(slot := Clear, kind := None)
  }

  /** The game's part of `interrupt`: record the type, arm the slot, and poke the board. */
  function RaiseStep(s: GameState, k: InterruptKind): (r: GameState)
    ensures r.slot == Armed && r.kind == Some(k) && Consistent(r)
    ensures r.tasks == s.tasks + (if s.pending == Idle then [RunCheckInterrupt] else [])
    ensures r.calls == s.calls + [EmitChanged]
    ensures r == s.(slot := Armed, kind := Some(k), tasks := r.tasks, calls := r.calls)
  {
    s.(slot := Armed, kind := Some(k),
       tasks := s.tasks + (if s.pending == Idle then [RunCheckInterrupt] else []),
       calls := s.calls + [EmitChanged])
  }

  /** The number of scheduled resolutions of `interrupt` promises. */
  function Resolutions(tasks: seq<Task>): nat {
    if tasks == [] then 0
    else Resolutions(tasks[..|tasks| - 1]) + (if tasks[|tasks| - 1] == ResolveInterrupt then 1 else 0)
  }

  lemma ResolutionsAppend(tasks: seq<Task>, t: Task)
    ensures Resolutions(tasks + [t]) == Resolutions(tasks) + (if t == ResolveInterrupt then 1 else 0)
  {
    assert (tasks + [t])[..|tasks|] == tasks;
  }

  /** `n` successive checks. */
  function Checks(s: GameState, n: nat): GameState {
    if n == 0 then s else CheckStep(Checks(s, n - 1)).0
  }

  /** Once checked, an interrupt stays delivered and further checks change nothing. */
  lemma {:induction false} ChecksAfterDelivery(s: GameState, n: nat)
    requires s.slot == Delivered
    ensures Checks(s, n) == s
  {
    if n > 0 {
      ChecksAfterDelivery(s, n - 1);
    }
  }

  /**
   * However many times it is checked, a raised interrupt resolves its promise
   * exactly once, and every check reports its type.
   */
  lemma InterruptResolvesOnce(s: GameState, k: InterruptKind, n: nat)
    requires n >= 1
    ensures var r := RaiseStep(s, k);
      && Resolutions(Checks(r, n).tasks) == Resolutions(r.tasks) + 1
      && Checks(r, n).slot == Delivered
      && CheckStep(Checks(r, n - 1)).1 == Some(k)
  {
    var r := RaiseStep(s, k);
    var first := CheckStep(r).0;
    assert first.slot == Delivered && first.kind == Some(k);
    assert first.tasks == r.tasks + [ResolveInterrupt];
    ResolutionsAppend(r.tasks, ResolveInterrupt);
    ChecksAfterInit(r, n - 1);
    ChecksAfterDelivery(first, n - 1);
    assert Checks(r, n) == first;
    if n > 1 {
      ChecksAfterInit(r, n - 2);
      ChecksAfterDelivery(first, n - 2);
      assert Checks(r, n - 1) == first;
    }
  }

  lemma {:induction false} ChecksAfterInit(r: GameState, m: nat)
    requires r.slot == Armed
    ensures Checks(r, m + 1) == Checks(CheckStep(r).0, m)
  {
    if m > 0 {
      ChecksAfterInit(r, m - 1);
    }
  }

  /** An interrupt raised while nothing is pending schedules its own check. */
  lemma IdleInterruptSchedulesCheck(s: GameState, k: InterruptKind)
    requires s.pending == Idle
    ensures RaiseStep(s, k).tasks[|RaiseStep(s, k).tasks| - 1] == RunCheckInterrupt
    ensures CheckStep(RaiseStep(s, k)).1 == Some(k)
  {
  }

  // ---------------------------------------------------------------------------
  // Waiting for the board to match a layout
  // ---------------------------------------------------------------------------

  /** One run of `waitReady`: false when interrupted (the listener is removed) or the board differs. */
  function ReadyAttempt(s: GameState, want: string, purpose: Purpose, physical: string): (r: (GameState, bool))
    ensures Consistent(s) ==> Consistent(r.0)
    ensures Consistent(s) ==> (r.1 <==> s.slot == Clear && physical == want)
    ensures Consistent(s) && r.1 ==> r.0 == s.(pending := Idle, readyWait := None,
                               notices := s.notices + [BoardReady(physical)],
                               tasks := s.tasks + [RunReady(purpose)])
    ensures Consistent(s) && s.slot != Clear ==> r.0 == CheckStep(s).0.(readyWait := None)
  {
    var (t, k) := CheckStep(s);
    if k.Some? then (t.(readyWait := None), false)
    else if physical == want then
      (t.(pending := Idle, readyWait := None, notices := t.notices + [BoardReady(physical)],
          tasks := t.tasks + [RunReady(purpose)]), true)
    else (t, false)
  }

  /** `waitForBoardReady`: try once; if that did not succeed, register the listener and wait. */
  function WaitReadyStep(s: GameState, want: string, purpose: Purpose, physical: string): (r: GameState)
    ensures Consistent(s) ==> Consistent(r)
    ensures ReadyAttempt(s, want, purpose, physical).1 ==> r == ReadyAttempt(s, want, purpose, physical).0
    ensures !ReadyAttempt(s, want, purpose, physical).1 ==>
      r.pending == WaitBoardReady && r.readyWait == Some(ReadyWait(want, purpose))
    ensures physical != want ==> !ReadyAttempt(s, want, purpose, physical).1
    ensures r.rules == s.rules && s.notices <= r.notices
  {
    var (t, ok) := ReadyAttempt(s, want, purpose, physical);
    if ok then t else t.(pending := WaitBoardReady, readyWait := Some(ReadyWait(want, purpose)))
  }

  /**
   * A board-ready wait started while an interrupt is raised still registers
   * its listener and sets the pending state to waiting-for-board, although
   * the interrupt was reported: the check's own removal happens before the
   * registration.
   */
  lemma InterruptedReadyWaitRegisters(s: GameState, want: string, purpose: Purpose, physical: string)
    requires Consistent(s) && s.slot != Clear
    ensures WaitReadyStep(s, want, purpose, physical).pending == WaitBoardReady
    ensures WaitReadyStep(s, want, purpose, physical).readyWait == Some(ReadyWait(want, purpose))
    ensures WaitReadyStep(s, want, purpose, physical).slot == Delivered
  {
  }

  // ---------------------------------------------------------------------------
  // Waiting for the board to show a move
  // ---------------------------------------------------------------------------

  function EpIndex(ep: Option<EpInfo>): Option<int> {
    match ep case None => None case Some(e) => Some(e.index)
  }

  /** `syncBoard` up to its wait: commit at once when in sync, else register `checkSync`. */
  function SyncStartStep(s: GameState, c: Color, ep: Option<EpInfo>, physical: string): (r: (GameState, bool))
    ensures Consistent(s) ==> Consistent(r.0)
    ensures r.1 <==> IsSync(physical, Expected(s.rules.board, Some(c)), c, ep)
    ensures r.1 ==> r.0 == s.(calls := s.calls + [Commit(c, Expected(s.rules.board, Some(c)), EpIndex(ep))])
    ensures !r.1 ==> r.0.pending == WaitBoardSync && r.0.syncWait == Some(SyncWait(c, Expected(s.rules.board, Some(c)), ep))
  {
    var raw := Expected(s.rules.board, Some(c));
    if IsSync(physical, raw, c, ep) then (s.(calls := s.calls + [Commit(c, raw, EpIndex(ep))]), true)
    else (s.(notices := s.notices + [WaitingBoardSync], pending := WaitBoardSync, syncWait := Some(SyncWait(c, raw, ep))), false)
  }

  /** One run of `checkSync`: the outcome it resolves with, None while still waiting. */
  function SyncCheckStep(s: GameState, physical: string): (r: (GameState, Option<SyncOutcome>))
    requires s.syncWait.Some?
    ensures Consistent(s) ==> Consistent(r.0)
    ensures Consistent(s) && s.slot != Clear ==> r == (CheckStep(s).0.(syncWait := None), Some(SyncInterrupted))
    ensures Consistent(s) ==> (r.1 == Some(Synced) <==> s.slot == Clear && IsSync(physical, s.syncWait.value.raw, s.syncWait.value.color, s.syncWait.value.ep))
    ensures r.1 == Some(Synced) ==>
      r.0.pending == Idle && r.0.syncWait.None?
      && r.0.calls == s.calls + [Commit(s.syncWait.value.color, s.syncWait.value.raw, EpIndex(s.syncWait.value.ep))]
    ensures Consistent(s) && r.1.None? ==> r.0 == s
  {
    var w := s.syncWait.value;
    var (t, k) := CheckStep(s);
    if k.Some? then (t.(syncWait := None), Some(SyncInterrupted))
    else if IsSync(physical, w.raw, w.color, w.ep) then
      (t.(pending := Idle, syncWait := None, calls := t.calls + [Commit(w.color, w.raw, EpIndex(w.ep))],
          notices := t.notices + [BoardSynced]), Some(Synced))
    else (t, None)
  }

  /** A board that shows the engine's position completes a sync wait for a move without en passant. */
  lemma ShownPositionSyncs(s: GameState, c: Color)
    requires s.slot == Clear
    ensures SyncStartStep(s, c, None, Layout(s.rules.board)).1
  {
    ShowingPositionIsSync(s.rules.board, c);
  }

  // ---------------------------------------------------------------------------
  // Take-back
  // ---------------------------------------------------------------------------

  /** `checkTakeback`'s decision: whether the sensed move undoes the last move. */
  function WantsTakeback(p: Position, c: Color, m: BoardMove): (r: bool)
    ensures r ==> p.history != [] && c == p.history[|p.history| - 1].record.color
  {
    LastMove(p).Some? && IsTakebackGesture(LastMove(p).value, c, m)
  }

  /** The two undos of `waitForTakeBack`, with the moves actually taken back. */
  function UndoTwo(p: Position): (r: (Position, seq<MoveRecord>))
    ensures |r.1| == Min(2, |p.history|)
    ensures r.0.history == p.history[..|p.history| - |r.1|]
  {
    var (p1, m1) := Undo(p);
    var (p2, m2) := Undo(p1);
    (p2, (if m1.Some? then [m1.value] else []) + (if m2.Some? then [m2.value] else []))
  }

  /** After two legal moves, a take-back returns to the position before both. */
  lemma TakebackUndoesTwoMoves(p: Position, r1: Request, r2: Request, legal: Oracle)
    requires legal(p, r1).Some?
    requires legal(Apply(p, r1, legal).0, r2).Some?
    ensures UndoTwo(Apply(Apply(p, r1, legal).0, r2, legal).0).0 == p
    ensures UndoTwo(Apply(Apply(p, r1, legal).0, r2, legal).0).1 ==
      [legal(Apply(p, r1, legal).0, r2).value.record, legal(p, r1).value.record]
  {
    UndoReversesApply(Apply(p, r1, legal).0, r2, legal);
    UndoReversesApply(p, r1, legal);
  }

  /** The game's part of `continuePlay`: reset the board to the position and schedule `play`. */
  function ContinueStep(s: GameState): (r: GameState)
    ensures r == s.(calls := s.calls + [ResetTo(Layout(s.rules.board))], tasks := s.tasks + [RunPlay])
  {
    s.(calls := s.calls + [ResetTo(Layout(s.rules.board))], tasks := s.tasks + [RunPlay])
  }

  /** The game's part of `waitForTakeBack`. */
  function TakebackStep(s: GameState, physical: string): (r: GameState)
    ensures Consistent(s) ==> Consistent(r)
    ensures r.rules == UndoTwo(s.rules).0
    ensures UndoTwo(s.rules).1 == [] ==> r == ContinueStep(s)
    ensures UndoTwo(s.rules).1 != [] ==>
      s.notices + [TakeBackStarted(UndoTwo(s.rules).1)] <= r.notices
    ensures UndoTwo(s.rules).1 != [] && physical != Layout(UndoTwo(s.rules).0.board) ==>
      r.pending == WaitBoardReady && r.readyWait == Some(ReadyWait(Layout(UndoTwo(s.rules).0.board), FinishTakeback))
    ensures Consistent(s) && UndoTwo(s.rules).1 != [] && s.slot == Clear && physical == Layout(UndoTwo(s.rules).0.board) ==>
      r.pending == Idle && r.tasks == s.tasks + [RunReady(FinishTakeback)]
  {
    var (p, taken) := UndoTwo(s.rules);
    var t := s.(rules := p);
    if taken == [] then ContinueStep(t)
    else WaitReadyStep(t.(notices := t.notices + [TakeBackStarted(taken)]), Layout(p.board), FinishTakeback, physical)
  }

  // ---------------------------------------------------------------------------
  // A new game
  // ---------------------------------------------------------------------------

  /** The layout letters the engine prints are all piece letters. */
  lemma LayoutWellFormed(board: Board)
    ensures IsLayout(Layout(board))
  {
    forall i | 0 <= i < 64
      ensures Layout(board)[i] == '.' || IsPieceLetter(Layout(board)[i])
    {
      if board[i].Some? {
        var p := board[i].value;
        assert Layout(board)[i] == Symbol(p);
        match p.kind
        case Pawn => assert Symbol(p) in "pnbrqkPNBRQK";
        case Knight => assert Symbol(p) in "pnbrqkPNBRQK";
        case Bishop => assert Symbol(p) in "pnbrqkPNBRQK";
        case Rook => assert Symbol(p) in "pnbrqkPNBRQK";
        case Queen => assert Symbol(p) in "pnbrqkPNBRQK";
        case King => assert Symbol(p) in "pnbrqkPNBRQK";
      }
    }
  }

  /** `initFen || defaultFen`. */
  function InitFen(initFen: string): string {
    if initFen == [] then DefaultFen else initFen
  }

  /** `newGame` as a whole, given the engine's position once reset and loaded with the initial FEN. */
  function NewGameStep(s: GameState, initFen: string, moves: string, loaded: Position, physical: string, legal: Oracle): (r: GameState)
    ensures Consistent(r)
    ensures r.gameId == s.gameId + 1
    ensures r.rules == ReplayMoves(loaded, moves, legal)
    ensures r.startFen == Placement(Layout(r.rules.board))
  {
    var t := RestartStep(s, initFen, moves, loaded, legal);
    WaitReadyStep(ClearStep(t), Layout(t.rules.board), StartGame, physical)
  }

  /** `newGame` up to clearing the interrupt: the replayed position and its FEN. */
  function RestartStep(s: GameState, initFen: string, moves: string, loaded: Position, legal: Oracle): (r: GameState)
    ensures r.rules == ReplayMoves(loaded, moves, legal)
  {
    var p := ReplayMoves(loaded, moves, legal);
    s.(gameId := s.gameId + 1, initFen := InitFen(initFen), moves := moves,
       calls := s.calls + [ResetBoard], rules := p, startFen := Placement(Layout(p.board)))
  }

  /**
   * A new game starts clean: its starting FEN reads back as the position's
   * layout, any interrupt is gone, and it is ready at once exactly when the
   * physical board already shows the position.
   */
  lemma NewGameStarts(s: GameState, initFen: string, moves: string, loaded: Position, physical: string, legal: Oracle)
    ensures var r := NewGameStep(s, initFen, moves, loaded, physical, legal);
      && FenCells(r.startFen) == Layout(r.rules.board)
      && r.slot == Clear
      && (physical == Layout(r.rules.board) ==>
            r.pending == Idle && r.tasks == s.tasks + [RunReady(StartGame)])
      && (physical != Layout(r.rules.board) ==>
            r.pending == WaitBoardReady && r.readyWait == Some(ReadyWait(Layout(r.rules.board), StartGame)))
  {
    var r := NewGameStep(s, initFen, moves, loaded, physical, legal);
    LayoutWellFormed(r.rules.board);
    RoundTrip(Layout(r.rules.board));
  }

  // ---------------------------------------------------------------------------
  // A player's turn
  // ---------------------------------------------------------------------------

  /** The request `move` builds from a player's answer. */
  function RequestOf(m: MoveSource): Request {
    match m
    case Text(t) => Coords(ParseMoveText(t))
    case Sensed(b) => Coords(SensedDesc(b))
  }

  /** The en-passant information added to a legal move by `color`. */
  function EpOf(record: MoveRecord, c: Color): Option<EpInfo> {
    if EpCaptureFlag in record.flags then Some(EpFor(record.to, c)) else None
  }

  /**
   * `waitPlayerTurn` over the answers the player gives: after each answer,
   * stop if interrupted; play it if legal; otherwise report it and ask again.
   */
  function TurnStep(s: GameState, c: Color, answers: seq<MoveSource>, legal: Oracle): (r: (GameState, TurnOutcome))
    ensures s.notices <= r.0.notices
    ensures !r.1.Played? ==> r.0.rules == s.rules
    ensures r.1.Played? ==> |r.0.rules.history| == |s.rules.history| + 1 && r.0.rules.turn == s.rules.turn.Opposite()
    decreases |answers|
  {
    if answers == [] then (s, NoAnswer)
    else
      var (t, k) := CheckStep(s);
      if k.Some? then (t, Interrupted(k.value))
      else
        var (p, rec) := Apply(t.rules, RequestOf(answers[0]), legal);
        if rec.None? then TurnStep(t.(notices := t.notices + [IllegalMove(c)]), c, answers[1..], legal)
        else (t.(rules := p), Played(rec.value, EpOf(rec.value, c)))
  }

  /** The index of the first legal answer, if any. */
  function FirstLegal(p: Position, answers: seq<MoveSource>, legal: Oracle): (r: Option<nat>)
    ensures r.Some? ==> r.value < |answers| && legal(p, RequestOf(answers[r.value])).Some?
    ensures r.Some? ==> forall j :: 0 <= j < r.value ==> legal(p, RequestOf(answers[j])).None?
    ensures r.None? ==> forall j :: 0 <= j < |answers| ==> legal(p, RequestOf(answers[j])).None?
  {
    if answers == [] then None
    else if legal(p, RequestOf(answers[0])).Some? then Some(0)
    else match FirstLegal(p, answers[1..], legal)
      case None => None
      case Some(i) => Some(i + 1)
  }

  function Repeat(n: nat, x: Notice): (r: seq<Notice>)
    ensures |r| == n && forall i :: 0 <= i < n ==> r[i] == x
  {
    if n == 0 then [] else Repeat(n - 1, x) + [x]
  }

  /**
   * Without an interrupt, a turn plays the first legal answer, reports one
   * illegal move per answer before it, and leaves the position one move on.
   */
  lemma {:induction false} TurnPlaysFirstLegal(s: GameState, c: Color, answers: seq<MoveSource>, legal: Oracle, i: nat)
    requires s.slot == Clear && FirstLegal(s.rules, answers, legal) == Some(i)
    ensures TurnStep(s, c, answers, legal).1 ==
      Played(legal(s.rules, RequestOf(answers[i])).value.record, EpOf(legal(s.rules, RequestOf(answers[i])).value.record, c))
    ensures TurnStep(s, c, answers, legal).0 ==
      s.(rules := Apply(s.rules, RequestOf(answers[i]), legal).0, notices := s.notices + Repeat(i, IllegalMove(c)))
    decreases |answers|
  {
    if i > 0 {
      var t := s.(notices := s.notices + [IllegalMove(c)]);
      assert TurnStep(s, c, answers, legal) == TurnStep(t, c, answers[1..], legal);
      TurnPlaysFirstLegal(t, c, answers[1..], legal, i - 1);
      assert answers[1..][i - 1] == answers[i];
      RepeatCons(i - 1, IllegalMove(c));
      assert s.notices + [IllegalMove(c)] + Repeat(i - 1, IllegalMove(c))
          == s.notices + ([IllegalMove(c)] + Repeat(i - 1, IllegalMove(c)));
    } else {
      assert s.notices + Repeat(0, IllegalMove(c)) == s.notices;
    }
  }

  /** Without an interrupt, a turn none of whose answers is legal reports each and leaves the position. */
  lemma {:induction false} TurnWithoutLegalAnswer(s: GameState, c: Color, answers: seq<MoveSource>, legal: Oracle)
    requires s.slot == Clear && FirstLegal(s.rules, answers, legal).None?
    ensures TurnStep(s, c, answers, legal) == (s.(notices := s.notices + Repeat(|answers|, IllegalMove(c))), NoAnswer)
    decreases |answers|
  {
    if answers != [] {
      var t := s.(notices := s.notices + [IllegalMove(c)]);
      assert TurnStep(s, c, answers, legal) == TurnStep(t, c, answers[1..], legal);
      TurnWithoutLegalAnswer(t, c, answers[1..], legal);
      RepeatCons(|answers| - 1, IllegalMove(c));
      assert s.notices + [IllegalMove(c)] + Repeat(|answers| - 1, IllegalMove(c))
          == s.notices + ([IllegalMove(c)] + Repeat(|answers| - 1, IllegalMove(c)));
    } else {
      assert s.notices + Repeat(0, IllegalMove(c)) == s.notices;
    }
  }

  lemma {:induction false} RepeatCons(n: nat, x: Notice)
    ensures [x] + Repeat(n, x) == Repeat(n + 1, x)
  {
    if n > 0 {
      RepeatCons(n - 1, x);
    }
  }

  /** An interrupt raised before the player answers ends the turn without touching the position. */
  lemma TurnInterrupted(s: GameState, c: Color, answers: seq<MoveSource>, legal: Oracle)
    requires Consistent(s) && s.slot != Clear && answers != []
    ensures TurnStep(s, c, answers, legal).1 == Interrupted(s.kind.value)
    ensures TurnStep(s, c, answers, legal).0.rules == s.rules
  {
  }

  /** `play` up to its wait for the player: handle a raised interrupt, else wait for the side to move. */
  function PlayStep(s: GameState, physical: string): (r: (GameState, PlayStart))
    ensures Consistent(s) ==> Consistent(r.0)
    ensures r.1 == TookBack <==> s.slot != Clear && s.kind == Some(TakeBackAct)
    ensures r.1 == ResetHandled <==> s.slot != Clear && s.kind == Some(ResetAct)
    ensures Consistent(s) && r.1.AwaitPlayer? ==> r.1.color == s.rules.turn && r.0 == s.(pending := WaitPlayer(s.rules.turn))
    ensures r.1 == TookBack ==> r.0 == TakebackStep(ClearStep(CheckStep(s).0), physical)
    ensures r.1 == ResetHandled ==> r.0 == ClearStep(CheckStep(s).0)
  {
    var (t, k) := CheckStep(s);
    match k
    case Some(TakeBackAct) => (TakebackStep(ClearStep(t), physical), TookBack)
    case Some(ResetAct) => (ClearStep(t), ResetHandled)
    case None => (t.(pending := WaitPlayer(t.rules.turn)), AwaitPlayer(t.rules.turn))
  }

  /**
   * `play` after the player's turn: replay on an interrupt, else start syncing the board.
   * The source tests only `checkInterrupt()`. A turn that returned Interrupted has
   * already delivered the interrupt, so the slot is not clear and that test agrees.
   * The extra `out.Interrupted?` test only keeps `out.ep` well formed.
   */
  function AfterTurnStep(s: GameState, c: Color, out: TurnOutcome, physical: string): (r: (GameState, Option<bool>))
    requires !out.NoAnswer?
    ensures Consistent(s) ==> Consistent(r.0)
    ensures Consistent(s) ==> (r.1.None? <==> s.slot != Clear || out.Interrupted?)
    ensures r.1.None? ==> r.0.tasks == CheckStep(s.(pending := Idle)).0.tasks + [RunPlay]
    ensures r.1.Some? ==> out.Played? && r == (SyncStartStep(CheckStep(s.(pending := Idle)).0, c, out.ep, physical).0,
                                           Some(SyncStartStep(CheckStep(s.(pending := Idle)).0, c, out.ep, physical).1))
  {
    var (t, k) := CheckStep(s.(pending := Idle));
    if k.Some? || out.Interrupted? then (t.(tasks := t.tasks + [RunPlay]), None)
    else
      var (u, done) := SyncStartStep(t, c, out.ep, physical);
      (u, Some(done))
  }

  /** `handleMove` once the board sync ended: report, then continue or end the game. */
  function HandleMoveStep(s: GameState, synced: SyncOutcome, v: Verdicts): (r: GameState)
    ensures synced == SyncInterrupted ==> r.tasks == s.tasks + [RunPlay]
    ensures synced == Synced && CheckEndGame(v, s.rules.turn).None? ==> r.tasks == s.tasks + [RunPlay]
    ensures synced == Synced && CheckEndGame(v, s.rules.turn).Some? ==>
      r.tasks == s.tasks && |r.notices| > 0 && r.notices[|r.notices| - 1] == GameOver(CheckEndGame(v, s.rules.turn).value)
  {
    if synced == SyncInterrupted then
      s.(notices := s.notices + [PlayerMoved(true)], tasks := s.tasks + [RunPlay])
    else
      var t := s.(notices := s.notices + [PlayerMoved(false)]);
      match CheckEndGame(v, s.rules.turn)
      case None => t.(tasks := t.tasks + [RunPlay])
      case Some(res) => t.(notices := t.notices + [GameOver(res)])
  }

  // ---------------------------------------------------------------------------
  // The coordinator
  // ---------------------------------------------------------------------------

  /** Distinct player objects. */
  predicate DistinctPlayers(ps: seq<Player>) {
    forall a, b :: 0 <= a < b < |ps| ==> ps[a] != ps[b]
  }

  class Game {
    const legal: Oracle

    var rules: Position
    var pending: Pending
    var slot: InterruptSlot
    var kind: Option<InterruptKind>
    var gameId: nat
    var tasks: seq<Task>
    var calls: seq<BoardCall>
    var notices: seq<Notice>
    var syncWait: Option<SyncWait>
    var readyWait: Option<ReadyWait>
    var initFen: string
    var moves: string
    var startFen: string
    /** `_players`, black then white; empty until seated. */
    var players: seq<Player>

    function State(): GameState
      reads this
    {
      GameState(rules, pending, slot, kind, gameId, tasks, calls, notices, syncWait, readyWait, initFen, moves, startFen)
    }

    ghost predicate Valid()
      reads this
    {
      Consistent(State()) && DistinctPlayers(players)
    }

    /** A coordinator with a fresh engine in `start` and no players. */
    constructor (start: Position, legal: Oracle)
      ensures Valid() && this.legal == legal && players == []
      ensures State() == GameState(start, Idle, Clear, None, 0, [], [], [], None, None, "", "", "")
    {
      this.legal := legal;
      rules, pending, slot, kind, gameId := start, Idle, Clear, None, 0;
      tasks, calls, notices, syncWait, readyWait := [], [], [], None, None;
      initFen, moves, startFen := "", "", "";
      players := [];
    }

    method CheckInterrupt() returns (k: Option<InterruptKind>)
      modifies this
      ensures (State(), k) == CheckStep(old(State()))
      ensures players == old(players)
    {
      if slot == Delivered {
        return kind;
      }
      if slot == Armed {
        slot := Delivered;
        pending := Idle;
        tasks := tasks + [ResolveInterrupt];
        return kind;
      }
      k := None;
    }

    method ClearInterrupt()
      modifies this
      ensures State() == ClearStep(old(State()))
      ensures players == old(players)
    {
      slot := Clear;
      kind := None;
    }

    /** `interruptPlayers`: pause each player if asked, then interrupt it. */
    method InterruptPlayers(k: InterruptKind, pause: bool)
      requires DistinctPlayers(players)
      modifies players
      ensures forall i :: 0 <= i < |players| ==>
        players[i].State() == InterruptStep(if pause then PauseStep(old(players[i].State())) else old(players[i].State()), k)
    {
      for i := 0 to |players|
        invariant forall j :: 0 <= j < i ==>
          players[j].State() == InterruptStep(if pause then PauseStep(old(players[j].State())) else old(players[j].State()), k)
        invariant forall j :: i <= j < |players| ==> players[j].State() == old(players[j].State())
      {
        if pause {
          players[i].Pause();
        }
        players[i].Interrupt(k);
      }
    }

    /** `interrupt(type, pause)` up to its await. */
    method Interrupt(k: InterruptKind, pause: bool)
      requires Valid()
      modifies this, players
      ensures Valid() && players == old(players)
      ensures State() == RaiseStep(old(State()), k)
      ensures forall i :: 0 <= i < |players| ==>
        players[i].State() == InterruptStep(if pause then PauseStep(old(players[i].State())) else old(players[i].State()), k)
    {
      kind := Some(k);
      slot := Armed;
      if pending == Idle {
        tasks := tasks + [RunCheckInterrupt];
      }
      InterruptPlayers(k, pause);
      calls := calls + [EmitChanged];
    }

    /** `reset`: a reset interrupt, without pausing the players. */
    method Reset()
      requires Valid()
      modifies this, players
      ensures Valid() && players == old(players)
      ensures State() == RaiseStep(old(State()), ResetAct)
      ensures forall i :: 0 <= i < |players| ==> players[i].State() == InterruptStep(old(players[i].State()), ResetAct)
    {
      Interrupt(ResetAct, false);
    }

    /** `takeBack`: ignored while waiting for the board to be set up. */
    method TakeBack()
      requires Valid()
      modifies this, players
      ensures Valid() && players == old(players)
      ensures old(pending) == WaitBoardReady ==>
        State() == old(State()) && forall i :: 0 <= i < |players| ==> players[i].State() == old(players[i].State())
      ensures old(pending) != WaitBoardReady ==>
        State() == RaiseStep(old(State()), TakeBackAct)
        && forall i :: 0 <= i < |players| ==> players[i].State() == InterruptStep(PauseStep(old(players[i].State())), TakeBackAct)
    {
      if pending != WaitBoardReady {
        Interrupt(TakeBackAct, true);
      }
    }

    /** `checkTakeback`: request a take-back when the sensed move undoes the last move. */
    method CheckTakeback(c: Color, m: BoardMove) returns (requested: bool)
      requires Valid()
      modifies this, players
      ensures Valid() && players == old(players)
      ensures requested <==> WantsTakeback(old(rules), c, m)
      ensures !requested ==>
        State() == old(State())
        && forall i :: 0 <= i < |players| ==> players[i].State() == old(players[i].State())
      ensures requested && old(pending) != WaitBoardReady ==>
        State() == RaiseStep(old(State()), TakeBackAct)
        && forall i :: 0 <= i < |players| ==> players[i].State() == InterruptStep(PauseStep(old(players[i].State())), TakeBackAct)
      ensures requested && old(pending) == WaitBoardReady ==>
        State() == old(State())
        && forall i :: 0 <= i < |players| ==> players[i].State() == old(players[i].State())
    {
      var last := LastMove(rules);
      if last.None? {
        return false;
      }
      var from := SquareName(m.from);
      var to := SquareName(m.to);
      requested := last.value.from == to && last.value.to == from && c.Code() == last.value.color.Code();
      if requested {
        TakeBack();
      }
    }

    /** The body of the `waitReady` closure. */
    method WaitReady(want: string, purpose: Purpose, physical: string) returns (ready: bool)
      requires Valid()
      modifies this
      ensures Valid() && players == old(players)
      ensures (State(), ready) == ReadyAttempt(old(State()), want, purpose, physical)
    {
      var k := CheckInterrupt();
      if k.Some? {
        readyWait := None;
        return false;
      }
      if physical == want {
        pending := Idle;
        readyWait := None;
        notices := notices + [BoardReady(physical)];
        tasks := tasks + [RunReady(purpose)];
        return true;
      }
      ready := false;
    }

    method WaitForBoardReady(want: string, purpose: Purpose, physical: string)
      requires Valid()
      modifies this
      ensures Valid() && players == old(players)
      ensures State() == WaitReadyStep(old(State()), want, purpose, physical)
    {
      var ready := WaitReady(want, purpose, physical);
      if !ready {
        pending := WaitBoardReady;
        readyWait := Some(ReadyWait(want, purpose));
      }
    }

    /** The registered `waitReady` listener, run on a board change. */
    method OnReadyBoardChange(physical: string)
      requires Valid() && readyWait.Some?
      modifies this
      ensures Valid() && players == old(players)
      ensures State() == ReadyAttempt(old(State()), old(readyWait).value.want, old(readyWait).value.purpose, physical).0
    {
      var _ := WaitReady(readyWait.value.want, readyWait.value.purpose, physical);
    }

    /** `syncBoard` for the move just played by `c`, up to its wait; true when committed at once. */
    method SyncBoard(c: Color, ep: Option<EpInfo>, physical: string) returns (done: bool)
      requires Valid()
      modifies this
      ensures Valid() && players == old(players)
      ensures (State(), done) == SyncStartStep(old(State()), c, ep, physical)
    {
      var raw := ExpectedLayout(rules.board, Some(c));
      if IsSync(physical, raw, c, ep) {
        calls := calls + [Commit(c, raw, EpIndex(ep))];
        return true;
      }
      notices := notices + [WaitingBoardSync];
      pending := WaitBoardSync;
      syncWait := Some(SyncWait(c, raw, ep));
      done := false;
    }

    /** The registered `checkSync` listener, run on a board change. */
    method CheckSync(physical: string) returns (outcome: Option<SyncOutcome>)
      requires Valid() && syncWait.Some?
      modifies this
      ensures Valid() && players == old(players)
      ensures (State(), outcome) == SyncCheckStep(old(State()), physical)
    {
      var w := syncWait.value;
      var k := CheckInterrupt();
      if k.Some? {
        syncWait := None;
        return Some(SyncInterrupted);
      }
      if IsSync(physical, w.raw, w.color, w.ep) {
        pending := Idle;
        syncWait := None;
        calls := calls + [Commit(w.color, w.raw, EpIndex(w.ep))];
        notices := notices + [BoardSynced];
        return Some(Synced);
      }
      outcome := None;
    }

    /** `continuePlay`: reset the board to the position, resume the players, schedule `play`. */
    method ContinuePlay()
      requires Valid()
      modifies this, players
      ensures Valid() && players == old(players)
      ensures State() == ContinueStep(old(State()))
      ensures forall i :: 0 <= i < |players| ==> players[i].State() == ResumeStep(old(players[i].State()))
    {
      calls := calls + [ResetTo(Layout(rules.board))];
      for i := 0 to |players|
        invariant players == old(players)
        invariant State() == old(State()).(calls := old(calls) + [ResetTo(Layout(rules.board))])
        invariant forall j :: 0 <= j < i ==> players[j].State() == ResumeStep(old(players[j].State()))
        invariant forall j :: i <= j < |players| ==> players[j].State() == old(players[j].State())
      {
        players[i].Resume();
      }
      tasks := tasks + [RunPlay];
    }

    method WaitForTakeBack(physical: string)
      requires Valid()
      modifies this, players
      ensures Valid() && players == old(players)
      ensures State() == TakebackStep(old(State()), physical)
      ensures UndoTwo(old(rules)).1 == [] ==>
        forall i :: 0 <= i < |players| ==> players[i].State() == ResumeStep(old(players[i].State()))
      ensures UndoTwo(old(rules)).1 != [] ==>
        forall i :: 0 <= i < |players| ==> players[i].State() == old(players[i].State())
    {
      var u1 := Undo(rules);
      var u2 := Undo(u1.0);
      rules := u2.0;
      var taken := (if u1.1.Some? then [u1.1.value] else []) + (if u2.1.Some? then [u2.1.value] else []);
      if taken == [] {
        ContinuePlay();
        return;
      }
      notices := notices + [TakeBackStarted(taken)];
      WaitForBoardReady(Layout(rules.board), FinishTakeback, physical);
    }

    /** The engine's `undo`, `count` times; NaN (None) is not above zero, and neither is 0. */
    method UndoRepeatedly(parsed: Option<int>)
      modifies this
      ensures players == old(players)
      ensures State() == old(State()).(rules := UndoN(old(rules), match parsed case Some(c) => if c > 0 then c else 0 case None => 0))
    {
      var count: int := parsed.GetOr(0);
      ghost var total: nat := if count > 0 then count else 0;
      while count > 0
        invariant players == old(players)
        invariant 0 <= total - (if count > 0 then count else 0) <= total
        invariant State() == old(State()).(rules := UndoN(old(rules), total - (if count > 0 then count else 0)))
        decreases count
      {
        rules := Undo(rules).0;
        count := count - 1;
      }
    }

    /** The replay loop of `newGame`: each space-separated entry is an undo entry or a move. */
    method ReplayMoveList(moves: string)
      modifies this
      ensures players == old(players)
      ensures State() == old(State()).(rules := ReplayMoves(old(rules), moves, legal))
    {
      if moves == [] {
        return;
      }
      var tokens := Split(moves, ' ');
      for i := 0 to |tokens|
        invariant players == old(players)
        invariant State() == old(State()).(rules := Replay(old(rules), tokens[..i], legal))
      {
        assert tokens[..i + 1][..i] == tokens[..i];
        ReplayEntry(tokens[i]);
      }
      assert tokens[..|tokens|] == tokens;
    }

    /** One entry of the saved move list: an `undo_N` entry, or a move in SAN. */
    method ReplayEntry(token: string)
      modifies this
      ensures players == old(players)
      ensures State() == old(State()).(rules := ReplayToken(old(rules), token, legal))
    {
      if StartsWith(token, "undo") {
        var parts := Split(token, '_');
        UndoRepeatedly(if |parts| > 1 then ParseInt(parts[1]) else None);
      } else {
        rules := Apply(rules, San(token), legal).0;
      }
    }

    /** `newGame`'s bookkeeping before the replay: a new game id, its arguments, a board reset and the loaded position. */
    method BeginGame(initFen: string, moves: string, loaded: Position)
      modifies this
      ensures players == old(players)
      ensures State() == old(State()).(gameId := old(gameId) + 1, initFen := InitFen(initFen), moves := moves,
                                       calls := old(calls) + [ResetBoard], rules := loaded)
    {
      gameId := gameId + 1;
      this.initFen := InitFen(initFen);
      this.moves := moves;
      calls := calls + [ResetBoard];
      rules := loaded;
    }

    /** `newGame` up to clearing the interrupt. */
    method Restart(initFen: string, moves: string, loaded: Position)
      modifies this
      ensures players == old(players)
      ensures State() == RestartStep(old(State()), initFen, moves, loaded, legal)
    {
      BeginGame(initFen, moves, loaded);
      ReplayMoveList(moves);
      startFen := RawToFen(Layout(rules.board));
    }

    /**
     * `newGame`, given the engine's position once reset and loaded with the
     * initial FEN (the engine's FEN loading is not modelled).
     */
    method NewGame(initFen: string, moves: string, loaded: Position, physical: string)
      requires Valid()
      modifies this
      ensures Valid() && players == old(players)
      ensures State() == NewGameStep(old(State()), initFen, moves, loaded, physical, legal)
    {
      Restart(initFen, moves, loaded);
      var startRaw := Layout(rules.board);
      ClearInterrupt();
      WaitForBoardReady(startRaw, StartGame, physical);
    }

    /** The part of `readyForNewGame` after the players are created: seat them and schedule `play`. */
    method SeatPlayers(black: Player, white: Player)
      requires Valid() && black != white
      modifies this
      ensures Valid() && players == [black, white]
      ensures State() == old(State()).(calls := old(calls) + [ResetBoard], tasks := old(tasks) + [RunPlay],
                                       notices := old(notices) + [Ready])
    {
      calls := calls + [ResetBoard];
      players := [black, white];
      tasks := tasks + [RunPlay];
      notices := notices + [Ready];
    }

    /** `play` up to its wait for the player. */
    method Play(physical: string) returns (start: PlayStart)
      requires Valid()
      modifies this, players
      ensures Valid() && players == old(players)
      ensures (State(), start) == PlayStep(old(State()), physical)
      ensures start == TookBack && UndoTwo(old(rules)).1 == [] ==>
        forall i :: 0 <= i < |players| ==> players[i].State() == ResumeStep(old(players[i].State()))
      ensures start != TookBack || UndoTwo(old(rules)).1 != [] ==>
        forall i :: 0 <= i < |players| ==> players[i].State() == old(players[i].State())
    {
      var k := CheckInterrupt();
      if k == Some(TakeBackAct) {
        ClearInterrupt();
        WaitForTakeBack(physical);
        return TookBack;
      } else if k == Some(ResetAct) {
        ClearInterrupt();
        return ResetHandled;
      }
      pending := WaitPlayer(rules.turn);
      start := AwaitPlayer(rules.turn);
    }

    /**
     * `waitPlayerTurn` for `c`, given the answers its player gives to
     * successive `yourTurn` calls (the first fresh, the rest retries).
     */
    method WaitPlayerTurn(c: Color, answers: seq<MoveSource>) returns (out: TurnOutcome)
      requires Valid()
      modifies this
      ensures Valid() && players == old(players)
      ensures (State(), out) == TurnStep(old(State()), c, answers, legal)
    {
      var i := 0;
      while i < |answers|
        invariant 0 <= i <= |answers|
        invariant Valid() && players == old(players)
        invariant TurnStep(old(State()), c, answers, legal) == TurnStep(State(), c, answers[i..], legal)
        invariant i > 0 ==> slot == Clear
      {
        ghost var before := State();
        var k := CheckInterrupt();
        if k.Some? {
          assert TurnStep(before, c, answers[i..], legal) == (State(), Interrupted(k.value));
          return Interrupted(k.value);
        }
        assert State() == before;
        var req := RequestOf(answers[i]);
        var (p, rec) := Apply(rules, req, legal);
        if rec.None? {
          notices := notices + [IllegalMove(c)];
          assert answers[i..][1..] == answers[i + 1..];
          assert TurnStep(before, c, answers[i..], legal) == TurnStep(State(), c, answers[i + 1..], legal);
          i := i + 1;
        } else {
          rules := p;
          assert TurnStep(before, c, answers[i..], legal) == (State(), Played(rec.value, EpOf(rec.value, c)));
          return Played(rec.value, EpOf(rec.value, c));
        }
      }
      out := NoAnswer;
    }

    /** `play` after the player's turn; Some(true) when the board was already in sync. */
    method AfterTurn(c: Color, out: TurnOutcome, physical: string) returns (synced: Option<bool>)
      requires Valid() && !out.NoAnswer?
      modifies this
      ensures Valid() && players == old(players)
      ensures (State(), synced) == AfterTurnStep(old(State()), c, out, physical)
    {
      pending := Idle;
      var k := CheckInterrupt();
      if k.Some? || out.Interrupted? {
        tasks := tasks + [RunPlay];
        return None;
      }
      var done := SyncBoard(c, out.ep, physical);
      synced := Some(done);
    }

    /** The rest of `handleMove`, once the board sync ended. */
    method HandleMove(synced: SyncOutcome, v: Verdicts)
      requires Valid()
      modifies this
      ensures Valid() && players == old(players)
      ensures State() == HandleMoveStep(old(State()), synced, v)
    {
      if synced == SyncInterrupted {
        notices := notices + [PlayerMoved(true)];
        tasks := tasks + [RunPlay];
        return;
      }
      notices := notices + [PlayerMoved(false)];
      var result := CheckEndGame(v, rules.turn);
      if result.None? {
        tasks := tasks + [RunPlay];
      } else {
        notices := notices + [GameOver(result.value)];
      }
    }
  }
}
