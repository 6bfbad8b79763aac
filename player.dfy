/**
 * The player turn protocol (lib/player.js).
 *
 * A player buffers moves sensed on the physical board while it is not its
 * turn, hands a move to an outstanding wait while it is, can be paused,
 * interrupted and reset, and keeps a time budget. The state is a
 * `PlayerState` value; each operation is a step function on it, and the
 * `Player` class holds the same state in fields and is proved to follow the
 * step functions.
 */
module Players {
  import opened Wrappers
  import opened ChessRules

  /** The two interrupts the coordinator raises. */
  datatype InterruptKind = TakeBackAct | ResetAct

  /** A move sensed on the physical board: square indices and a promotion letter ("" for none). */
  datatype BoardMove = BoardMove(from: SquareIx, to: SquareIx, promotion: string)

  /** What a wait for a move resolves with. */
  datatype Delivery =
    | Moved(move: BoardMove)
    | Signal(kind: InterruptKind)
    | ResetSentinel  // the string "reset"

  /**
   * The `_awaitMove` slot: no wait, a wait not yet resolved, or a wait that
   * `reset` resolved but left in place (resolving it again does nothing).
   */
  datatype AwaitSlot = NoWait | Open | Settled

  datatype PlayerState = PlayerState(
    paused: bool,                  // `_pause`
    latch: Option<InterruptKind>,  // `_interrupt`
    inTurn: bool,                  // `_myTurn`
    pending: seq<BoardMove>,       // `_pendingMoves`
    slot: AwaitSlot,               // `_awaitMove`
    resolved: seq<Delivery>,       // what each wait was resolved with, oldest first
    detects: nat,                  // detectMoves passes scheduled on the board
    remaining: int,                // `_remainTime`, in milliseconds
    turnStart: Option<int>,        // `_turnStartTime`
    turnEnd: Option<int>)          // `_turnEndTime`

  /** A fresh player: nothing pending, not in turn, the whole budget left. */
  function InitialState(totalTime: int): PlayerState {
    PlayerState(false, None, false, [], NoWait, [], 0, totalTime, None, None)
  }

  /** The time fields are untouched. */
  predicate SameClock(s: PlayerState, r: PlayerState) {
    r.remaining == s.remaining && r.turnStart == s.turnStart && r.turnEnd == s.turnEnd
  }

  /** Resolving the wait in the slot: an open wait takes the value, a settled one ignores it. */
  function Resolve(s: PlayerState, d: Delivery): PlayerState {
    s.(resolved := if s.slot == Open then s.resolved + [d] else s.resolved)
  }

  /**
   * The board's move handler for this player's colour. The boolean is true
   * when the handler asked the game to check for a take-back gesture.
   */
  function OnMoveStep(s: PlayerState, m: BoardMove, allowTakeback: bool): (r: (PlayerState, bool))
    ensures s.paused ==> r == (s, false)
    ensures r.1 <==> !s.paused && !s.inTurn && allowTakeback
    ensures !s.paused && (!s.inTurn || s.slot == NoWait) ==> r.0 == s.(pending := s.pending + [m])
    ensures !s.paused && s.inTurn && s.slot != NoWait ==>
      r.0 == s.(slot := NoWait, resolved := s.resolved + (if s.slot == Open then [Moved(m)] else []))
  {
    if s.paused then (s, false)
    else if !s.inTurn then (s.(pending := s.pending + [m]), allowTakeback)
    else if s.slot != NoWait then (Resolve(s, Moved(m)).(slot := NoWait), false)
    else (s.(pending := s.pending + [m]), false)
  }

  /**
   * An unpaused player accounts for every move exactly once, unless a
   * settled wait swallows it: the move is either queued or handed to the
   * open wait, never both.
   */
  lemma MoveQueuedOrDelivered(s: PlayerState, m: BoardMove, allowTakeback: bool)
    requires !s.paused && s.slot != Settled
    ensures var r := OnMoveStep(s, m, allowTakeback).0;
      && SameClock(s, r)
      && (r.pending == s.pending + [m]) != (r.resolved == s.resolved + [Moved(m)])
      && (r.pending == s.pending || r.pending == s.pending + [m])
      && (r.resolved == s.resolved || r.resolved == s.resolved + [Moved(m)])
  {
  }

  function PauseStep(s: PlayerState): (r: PlayerState)
    ensures r.paused && r == s.(paused := true)
  {
    s.(paused := true)
  }

  function ResumeStep(s: PlayerState): (r: PlayerState)
    ensures !r.paused && r.latch.None?
    ensures r == s.(paused := false, latch := None)
  {
    s.(paused := false, latch := None)
  }

  /**
   * `reset`: pause, drop the latch and the queue, and resolve an outstanding
   * wait with the reset sentinel. The slot is not cleared, so the wait stays
   * settled.
   */
  function ResetStep(s: PlayerState): (r: PlayerState)
    ensures r.paused && r.latch.None? && r.pending == []
    ensures r.slot == (if s.slot == NoWait then NoWait else Settled)
    ensures r.resolved == s.resolved + (if s.slot == Open then [ResetSentinel] else [])
    ensures r.inTurn == s.inTurn && r.detects == s.detects && SameClock(s, r)
  {
    var t := s.(paused := true, latch := None, pending := []);
    if s.slot != NoWait then Resolve(t, ResetSentinel).(slot := Settled) else t
  }

  /** `interrupt(type)`: resolve and clear an outstanding wait, or else latch the type. */
  function InterruptStep(s: PlayerState, k: InterruptKind): (r: PlayerState)
    ensures r.slot == NoWait
    ensures r.latch == (if s.slot == NoWait then Some(k) else s.latch)
    ensures r.resolved == s.resolved + (if s.slot == Open then [Signal(k)] else [])
    ensures r.pending == s.pending && r.paused == s.paused && r.inTurn == s.inTurn
    ensures r.detects == s.detects && SameClock(s, r)
  {
    if s.slot != NoWait then Resolve(s, Signal(k)).(slot := NoWait) else s.(latch := Some(k))
  }

  /**
   * `waitMove`: a latched interrupt is returned at once; otherwise queued
   * moves are dropped (and a detectMoves pass scheduled) and a fresh wait is
   * opened. The second component is the value returned at once, if any.
   */
  function WaitMoveStep(s: PlayerState): (r: (PlayerState, Option<Delivery>))
    ensures s.latch.Some? ==> r == (s, Some(Signal(s.latch.value)))
    ensures s.latch.None? ==> r.1.None? && r.0.slot == Open && r.0.pending == []
    ensures s.latch.None? ==> r.0.detects == s.detects + (if s.pending == [] then 0 else 1)
    ensures r.0.latch == s.latch && r.0.resolved == s.resolved && r.0.paused == s.paused
    ensures r.0.inTurn == s.inTurn && SameClock(s, r.0)
  {
    if s.latch.Some? then (s, Some(Signal(s.latch.value)))
    else
      var t := if |s.pending| > 0 then s.(pending := [], detects := s.detects + 1) else s;
      (t.(slot := Open), None)
  }

  function StartTurnStep(s: PlayerState, now: int): (r: PlayerState)
    ensures r.inTurn && r.turnStart == Some(now)
    ensures r == s.(inTurn := true, turnStart := Some(now))
  {
    s.(inTurn := true, turnStart := Some(now))
  }

  /** `endTurn`: leave the turn and charge its duration to the budget. */
  function EndTurnStep(s: PlayerState, now: int): (r: PlayerState)
    requires s.turnStart.Some?
    ensures !r.inTurn && r.turnEnd == Some(now)
    ensures r.remaining == s.remaining - (now - s.turnStart.value)
    ensures r == s.(inTurn := false, turnEnd := Some(now), remaining := r.remaining)
  {
    s.(inTurn := false, turnEnd := Some(now), remaining := s.remaining - (now - s.turnStart.value))
  }

  /** A turn from `start` to `end` costs exactly `end - start`, whatever happens in between without touching the clock. */
  lemma TurnCostsItsDuration(s: PlayerState, mid: PlayerState, start: int, end: int)
    requires SameClock(StartTurnStep(s, start), mid)
    ensures EndTurnStep(mid, end).remaining == s.remaining - (end - start)
    ensures !EndTurnStep(mid, end).inTurn
  {
  }

  /** An interrupt raised while no wait is outstanding is what the next `waitMove` returns. */
  lemma LatchedInterruptReturned(s: PlayerState, k: InterruptKind)
    requires s.slot == NoWait
    ensures WaitMoveStep(InterruptStep(s, k)).1 == Some(Signal(k))
  {
  }

  /** After `resume`, `waitMove` opens a wait instead of returning a stale interrupt. */
  lemma ResumeClearsLatch(s: PlayerState)
    ensures WaitMoveStep(ResumeStep(s)).1.None?
    ensures WaitMoveStep(ResumeStep(s)).0.slot == Open
  {
  }

  /**
   * The non-empty names among `parts` (`filter(x => x)`): exactly those are
   * kept; that they keep their order is read from the body.
   */
  function NonEmpty(parts: seq<string>): (r: seq<string>)
    ensures forall i :: 0 <= i < |r| ==> r[i] != []
    ensures |r| <= |parts|
    ensures forall x :: x in r <==> x in parts && x != []
  {
    if parts == [] then []
    else if parts[0] == [] then NonEmpty(parts[1..])
    else [parts[0]] + NonEmpty(parts[1..])
  }

  /** `join(sep)`. */
  function Join(parts: seq<string>, sep: string): string {
    if parts == [] then []
    else if |parts| == 1 then parts[0]
    else parts[0] + sep + Join(parts[1..], sep)
  }

  /** The `name` getter: the non-empty first and last names joined by a space, else "player". */
  function FullName(first: string, last: string): (name: string)
    ensures name != []
    ensures first == [] && last == [] ==> name == "player"
    ensures first != [] && last != [] ==> name == first + " " + last
    ensures first != [] && last == [] ==> name == first
    ensures first == [] && last != [] ==> name == last
  {
    var full := Join(NonEmpty([first, last]), " ");
    assert [first, last][1..] == [last];
    assert NonEmpty([last]) == if last == [] then [] else [last] by {
      assert [last][1..] == [];
    }
    assert first != [] && last != [] ==> NonEmpty([first, last]) == [first, last];
    assert Join([first, last], " ") == first + " " + Join([last], " ") by {
      assert [first, last][1..] == [last];
    }
    if full == [] then "player" else full
  }

  /** What a player is told about itself when created; absent names are "". */
  datatype PlayerInfo = PlayerInfo(firstName: string, lastName: string, totalTime: int)

  class Player {
    const color: Color
    /** `allowTakeback()`: false for a user player, true for an engine player. */
    const allowsTakeback: bool
    const info: PlayerInfo

    var paused: bool
    var latch: Option<InterruptKind>
    var inTurn: bool
    var pendingMoves: seq<BoardMove>
    var slot: AwaitSlot
    var resolved: seq<Delivery>
    var detects: nat
    var remaining: int
    var turnStart: Option<int>
    var turnEnd: Option<int>

    function State(): PlayerState
      reads this
    {
      PlayerState(paused, latch, inTurn, pendingMoves, slot, resolved, detects, remaining, turnStart, turnEnd)
    }

    constructor (color: Color, info: PlayerInfo, allowsTakeback: bool)
      ensures this.color == color && this.info == info && this.allowsTakeback == allowsTakeback
      ensures State() == InitialState(info.totalTime)
    {
      this.color := color;
      this.info := info;
      this.allowsTakeback := allowsTakeback;
      paused, latch, inTurn, pendingMoves := false, None, false, [];
      slot, resolved, detects := NoWait, [], 0;
      remaining, turnStart, turnEnd := info.totalTime, None, None;
    }

    /** The inherited `minTime` getter: a constant, never above the engine's 10 ms threshold. */
    function MinTime(): (t: int)
      ensures 0 < t <= 10
    {
      1
    }

    function Name(): (name: string)
      reads this
      ensures name != []
    {
      FullName(info.firstName, info.lastName)
    }

    /**
     * The handler `setupMoveListener` installs for this colour's board
     * moves. `consulted` is true when it calls the game's checkTakeback
     * before queueing the move.
     */
    method OnBoardMove(m: BoardMove) returns (consulted: bool)
      modifies this
      ensures (State(), consulted) == OnMoveStep(old(State()), m, allowsTakeback)
    {
      consulted := false;
      if paused {
        return;
      }
      if !inTurn {
        if allowsTakeback {
          consulted := true;
        }
        pendingMoves := pendingMoves + [m];
      } else if slot != NoWait {
        if slot == Open {
          resolved := resolved + [Moved(m)];
        }
        slot := NoWait;
      } else {
        pendingMoves := pendingMoves + [m];
      }
    }

    method Resume()
      modifies this
      ensures State() == ResumeStep(old(State()))
    {
      paused := false;
      latch := None;
    }

    method Pause()
      modifies this
      ensures State() == PauseStep(old(State()))
    {
      paused := true;
    }

    method Reset()
      modifies this
      ensures State() == ResetStep(old(State()))
    {
      paused := true;
      latch := None;
      pendingMoves := [];
      if slot != NoWait {
        if slot == Open {
          resolved := resolved + [ResetSentinel];
        }
        slot := Settled;
      }
    }

    method Interrupt(k: InterruptKind)
      modifies this
      ensures State() == InterruptStep(old(State()), k)
    {
      if slot != NoWait {
        if slot == Open {
          resolved := resolved + [Signal(k)];
        }
        slot := NoWait;
      } else {
        latch := Some(k);
      }
    }

    /** `waitMove`; `immediate` is the value returned without waiting, if any. */
    method WaitMove() returns (immediate: Option<Delivery>)
      modifies this
      ensures (State(), immediate) == WaitMoveStep(old(State()))
    {
      if latch.Some? {
        return Some(Signal(latch.value));
      }
      if |pendingMoves| > 0 {
        pendingMoves := [];
        detects := detects + 1;
      }
      slot := Open;
      immediate := None;
    }

    method StartTurn(now: int)
      modifies this
      ensures State() == StartTurnStep(old(State()), now)
    {
      inTurn := true;
      turnStart := Some(now);
    }

    method EndTurn(now: int)
      requires turnStart.Some?
      modifies this
      ensures State() == EndTurnStep(old(State()), now)
    {
      inTurn := false;
      turnEnd := Some(now);
      remaining := remaining - (now - turnStart.value);
    }

    /** `yourTurn` up to its await: start the turn and ask for a move. */
    method YourTurnBegin(now: int) returns (immediate: Option<Delivery>)
      modifies this
      ensures (State(), immediate) == WaitMoveStep(StartTurnStep(old(State()), now))
      ensures inTurn
    {
      StartTurn(now);
      immediate := WaitMove();
    }

    /**
     * `yourTurn` after its await, given the move the wait produced: clear the
     * interrupt latch, then (in `finally`) end the turn.
     */
    method YourTurnFinish(move: Delivery, now: int) returns (result: Delivery)
      requires turnStart.Some?
      modifies this
      ensures result == move
      ensures State() == EndTurnStep(old(State()).(latch := None), now)
      ensures !inTurn && latch.None?
    {
      latch := None;
      result := move;
      EndTurn(now);
    }
  }
}
