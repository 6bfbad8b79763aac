/**
 * A human player at the physical board (lib/user-player.js).
 *
 * Its turn waits for the next sensed move like the base player's, but it
 * does not clear the interrupt latch afterwards, and it always ends the turn.
 * The player state lives in the shared `Player` object `base`.
 */
module UserPlayers {
  import opened Wrappers
  import opened ChessRules
  import opened Players

  class UserPlayer {
    const base: Player

    constructor (color: Color, info: PlayerInfo)
      ensures fresh(base)
      ensures base.color == color && base.info == info && !base.allowsTakeback
      ensures base.State() == InitialState(info.totalTime)
    {
      base := new Player(color, info, false);
    }

    /** `yourTurn` up to its await: start the turn and ask for a move. */
    method YourTurnBegin(now: int) returns (immediate: Option<Delivery>)
      modifies base
      ensures (base.State(), immediate) == WaitMoveStep(StartTurnStep(old(base.State()), now))
    {
      immediate := base.YourTurnBegin(now);
    }

    /** `yourTurn` after its await: the move is returned and the turn ended; the latch is kept. */
    method YourTurnFinish(move: Delivery, now: int) returns (result: Delivery)
      requires base.turnStart.Some?
      modifies base
      ensures result == move
      ensures base.State() == EndTurnStep(old(base.State()), now)
    {
      result := move;
      base.EndTurn(now);
    }
  }

  /** The player state after a whole user turn. */
  function UserTurn(s: PlayerState, start: int, end: int): (r: PlayerState)
    ensures !r.inTurn && r.remaining == s.remaining - (end - start)
    ensures r.latch == s.latch
  {
    EndTurnStep(WaitMoveStep(StartTurnStep(s, start)).0, end)
  }

  /** The base player's turn: the same, but the latch is cleared. */
  function BaseTurn(s: PlayerState, start: int, end: int): (r: PlayerState)
    ensures !r.inTurn && r.remaining == s.remaining - (end - start)
    ensures r.latch.None?
  {
    EndTurnStep(WaitMoveStep(StartTurnStep(s, start)).0.(latch := None), end)
  }

  /**
   * A latched interrupt answers a user's turn at once and is still latched
   * afterwards, so every later turn is answered with it too until the player
   * is resumed or reset. The base player's turn would consume it.
   */
  lemma UserLatchPersists(s: PlayerState, k: InterruptKind, start: int, end: int, start2: int)
    requires s.slot == NoWait
    ensures WaitMoveStep(StartTurnStep(InterruptStep(s, k), start)).1 == Some(Signal(k))
    ensures WaitMoveStep(StartTurnStep(UserTurn(InterruptStep(s, k), start, end), start2)).1 == Some(Signal(k))
    ensures WaitMoveStep(StartTurnStep(BaseTurn(InterruptStep(s, k), start, end), start2)).1.None?
  {
  }
}
