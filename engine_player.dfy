/**
 * A player driven by one or more chess engines (lib/engine-player.js).
 *
 * The ensemble is shuffled once, then consulted in rotation, one engine per
 * turn; a retried turn stays with the same engine and a take-back rewinds to
 * the engine that played the last turn. The engines themselves are not
 * modelled: what an engine's `go` answers is a parameter of the turn.
 */
module EnginePlayers {
  import opened Wrappers
  import opened ChessRules
  import opened Players
  import GameLogic

  datatype Engine = Engine(name: string)

  /** What an engine's `go` resolves with; an empty `pickmove` counts as absent. */
  datatype GoResult = GoResult(bestmove: string, pickmove: string)

  // ---------------------------------------------------------------------------
  // Shuffling the ensemble
  // ---------------------------------------------------------------------------

  /** The random picks of a shuffle of `n` engines: one index below `n` per position. */
  predicate PicksFit(picks: seq<nat>, n: nat) {
    |picks| >= n && forall i :: 0 <= i < n ==> picks[i] < n
  }

  /** One step of the shuffle loop: swap the entries at `ix` and `x`. */
  function Swap(s: seq<Engine>, ix: nat, x: nat): (r: seq<Engine>)
    requires ix < |s| && x < |s|
    ensures |r| == |s|
  {
    s[x := s[ix]][ix := s[x]]
  }

  /** The ensemble after the first `k` steps of the shuffle loop. */
  function ShuffleUpTo(s: seq<Engine>, picks: seq<nat>, k: nat): (r: seq<Engine>)
    requires k <= |s| && PicksFit(picks, |s|)
    ensures |r| == |s|
  {
    if k == 0 then s else Swap(ShuffleUpTo(s, picks, k - 1), k - 1, picks[k - 1])
  }

  /** `shuffleEngines`: a full pass of swaps, skipped for an ensemble of one. */
  function Shuffle(s: seq<Engine>, picks: seq<nat>): (r: seq<Engine>)
    requires |s| > 1 ==> PicksFit(picks, |s|)
    ensures |r| == |s|
    ensures |s| <= 1 ==> r == s
  {
    if |s| > 1 then ShuffleUpTo(s, picks, |s|) else s
  }

  lemma SwapPermutes(s: seq<Engine>, ix: nat, x: nat)
    requires ix < |s| && x < |s|
    ensures multiset(Swap(s, ix, x)) == multiset(s)
  {
    if ix != x {
      var t := s[x := s[ix]];
      assert multiset(t) == multiset(s) - multiset{s[x]} + multiset{s[ix]};
      assert multiset(t[ix := s[x]]) == multiset(t) - multiset{t[ix]} + multiset{s[x]};
    }
  }

  /** Whatever the random picks, the shuffle keeps every engine exactly once. */
  lemma {:induction false} ShufflePermutes(s: seq<Engine>, picks: seq<nat>, k: nat)
    requires k <= |s| && PicksFit(picks, |s|)
    ensures multiset(ShuffleUpTo(s, picks, k)) == multiset(s)
    decreases k
  {
    if k > 0 {
      ghost var before := multiset(ShuffleUpTo(s, picks, k - 1));
      ShufflePermutes(s, picks, k - 1);
      assert before == multiset(s);
      ShuffleStepPermutes(s, picks, k);
      assert multiset(ShuffleUpTo(s, picks, k)) == before;
    }
  }

  lemma ShuffleStepPermutes(s: seq<Engine>, picks: seq<nat>, k: nat)
    requires 0 < k <= |s| && PicksFit(picks, |s|)
    ensures multiset(ShuffleUpTo(s, picks, k)) == multiset(ShuffleUpTo(s, picks, k - 1))
  {
    assert picks[k - 1] < |s|;
    SwapPermutes(ShuffleUpTo(s, picks, k - 1), k - 1, picks[k - 1]);
  }

  lemma ShuffleIsPermutation(s: seq<Engine>, picks: seq<nat>)
    requires |s| > 1 ==> PicksFit(picks, |s|)
    ensures |Shuffle(s, picks)| == |s|
    ensures multiset(Shuffle(s, picks)) == multiset(s)
  {
    if |s| > 1 {
      ShufflePermutes(s, picks, |s|);
    }
  }

  // ---------------------------------------------------------------------------
  // Rotation
  // ---------------------------------------------------------------------------

  /** The engine index after a turn: advance with wrap-around, unless retrying or alone. */
  function NextIndex(ix: nat, n: nat, tryAgain: bool): (r: nat)
    requires ix < n
    ensures r < n
    ensures tryAgain || n == 1 ==> r == ix
    ensures !tryAgain ==> r == (ix + 1) % n
  {
    if !tryAgain && n > 1 then (if ix + 1 >= n then 0 else ix + 1) else ix
  }

  /** The engine index after `t` fresh (not retried) turns starting at `ix`. */
  function AfterTurns(ix: nat, n: nat, t: nat): (r: nat)
    requires ix < n
    ensures r < n
  {
    if t == 0 then ix else NextIndex(AfterTurns(ix, n, t - 1), n, false)
  }

  /** Turns compose: `a` turns then `b` turns are `a + b` turns. */
  lemma {:induction false} AfterTurnsCompose(ix: nat, n: nat, a: nat, b: nat)
    requires ix < n
    ensures AfterTurns(AfterTurns(ix, n, a), n, b) == AfterTurns(ix, n, a + b)
  {
    if b > 0 {
      AfterTurnsCompose(ix, n, a, b - 1);
    }
  }

  /** Before the end of the ensemble is reached, each fresh turn moves to the next engine. */
  lemma {:induction false} RotationAdvances(ix: nat, n: nat, t: nat)
    requires ix + t < n
    ensures AfterTurns(ix, n, t) == ix + t
  {
    if t > 0 {
      RotationAdvances(ix, n, t - 1);
    }
  }

  /** Fresh turns visit every engine once and come back: the rotation has period `n`. */
  lemma RotationCycles(ix: nat, n: nat)
    requires ix < n
    ensures forall t :: 0 <= t < n - ix ==> AfterTurns(ix, n, t) == ix + t
    ensures forall t :: n - ix <= t < n ==> AfterTurns(ix, n, t) == t - (n - ix)
    ensures AfterTurns(ix, n, n) == ix
  {
    forall t | 0 <= t < n - ix
      ensures AfterTurns(ix, n, t) == ix + t
    {
      RotationAdvances(ix, n, t);
    }
    RotationAdvances(ix, n, n - 1 - ix);
    assert AfterTurns(ix, n, n - ix) == 0 by {
      AfterTurnsCompose(ix, n, n - 1 - ix, 1);
    }
    forall t | n - ix <= t <= n
      ensures AfterTurns(ix, n, t) == t - (n - ix)
    {
      RotationAdvances(0, n, t - (n - ix));
      AfterTurnsCompose(ix, n, n - ix, t - (n - ix));
    }
  }

  lemma {:induction false} MulAtLeast(k: nat, n: nat)
    requires k >= 1
    ensures k * n >= n
  {
    if k > 1 {
      MulAtLeast(k - 1, n);
      assert k * n == (k - 1) * n + n;
    }
  }

  /** The remainder is the unique `r` in `[0, n)` with `t == q * n + r`. */
  lemma DivModUnique(t: int, n: int, q: int, r: int)
    requires n > 0 && 0 <= r < n && t == q * n + r
    ensures t % n == r
  {
    var q2, r2 := t / n, t % n;
    assert t == q2 * n + r2;
    if q > q2 {
      assert q * n == (q - q2) * n + q2 * n;
      MulAtLeast(q - q2, n);
      assert false;
    } else if q < q2 {
      assert q2 * n == (q2 - q) * n + q * n;
      MulAtLeast(q2 - q, n);
      assert false;
    }
  }

  lemma ModSub(t: int, n: int)
    requires n > 0 && t >= n
    ensures t % n == (t - n) % n
  {
    var q, r := (t - n) / n, (t - n) % n;
    assert t == (q + 1) * n + r;
    DivModUnique(t, n, q + 1, r);
  }

  /** From the first engine, `t` fresh turns lead to engine `t mod n`. */
  lemma {:induction false} RotationFromStart(n: nat, t: nat)
    requires n >= 1
    ensures AfterTurns(0, n, t) == t % n
    decreases t
  {
    if t < n {
      RotationAdvances(0, n, t);
      DivModUnique(t, n, 0, t);
    } else {
      RotationCycles(0, n);
      AfterTurnsCompose(0, n, n, t - n);
      RotationFromStart(n, t - n);
      ModSub(t, n);
    }
  }

  /** From any engine, `t` fresh turns lead to engine `(ix + t) mod n`. */
  lemma RotationModulo(ix: nat, n: nat, t: nat)
    requires ix < n
    ensures AfterTurns(ix, n, t) == (ix + t) % n
  {
    RotationAdvances(0, n, ix);
    AfterTurnsCompose(0, n, ix, t);
    RotationFromStart(n, ix + t);
  }

  // ---------------------------------------------------------------------------
  // The player
  // ---------------------------------------------------------------------------

  /** What one turn answers: the move text, the engine that chose it and its full result. */
  datatype TurnAnswer = TurnAnswer(move: string, engine: Engine, result: GoResult)

  /** `pickmove || bestmove`. */
  function ChosenMove(r: GoResult): (m: string)
    ensures m == r.pickmove || m == r.bestmove
    ensures r.pickmove != [] ==> m == r.pickmove
  {
    if r.pickmove != [] then r.pickmove else r.bestmove
  }

  /** The engine names joined by commas. */
  function EngineNames(s: seq<Engine>): (names: seq<string>)
    ensures |names| == |s|
    ensures forall i :: 0 <= i < |s| ==> names[i] == s[i].name
  {
    if s == [] then [] else [s[0].name] + EngineNames(s[1..])
  }

  /**
   * The engine list in the name reads back: when no engine's name holds a
   * comma, splitting the text between the parentheses on commas gives the
   * engine names in order.
   */
  lemma EngineListReadsBack(s: seq<Engine>)
    requires |s| > 0
    requires forall i :: 0 <= i < |s| ==> ',' !in s[i].name
    ensures GameLogic.Split(Join(EngineNames(s), ","), ',') == EngineNames(s)
  {
    GameLogic.JoinSplit(EngineNames(s), ',');
  }

  class EnginePlayer {
    const base: Player
    const engines: array<Engine>
    var engineIx: nat
    var lastEngineIx: nat
    var current: Engine
    var lastResult: Option<GoResult>

    ghost predicate Valid()
      reads this, base
    {
      engines.Length > 0 && engineIx < engines.Length && lastEngineIx < engines.Length
      && base.allowsTakeback
    }

    /**
     * Shuffles the given ensemble with the given random picks and starts the
     * rotation at the first engine of the shuffled order.
     */
    constructor (color: Color, info: PlayerInfo, ensemble: seq<Engine>, picks: seq<nat>)
      requires |ensemble| > 0
      requires |ensemble| > 1 ==> PicksFit(picks, |ensemble|)
      ensures Valid() && fresh(base) && fresh(engines)
      ensures engines[..] == Shuffle(ensemble, picks)
      ensures engineIx == 0 && lastEngineIx == 0 && current == engines[0] && lastResult.None?
      ensures base.color == color && base.info == info
      ensures base.State() == InitialState(info.totalTime)
    {
      base := new Player(color, info, true);
      engines := new Engine[|ensemble|](i requires 0 <= i < |ensemble| => ensemble[i]);
      engineIx, lastEngineIx := 0, 0;
      current := ensemble[0];
      lastResult := None;
      new;
      assert engines[..] == ensemble;
      ShuffleEngines(picks);
      current := engines[0];
    }

    /** The shuffle loop, in place on the ensemble. */
    method ShuffleEngines(picks: seq<nat>)
      requires engines.Length > 1 ==> PicksFit(picks, engines.Length)
      modifies engines
      ensures engines[..] == Shuffle(old(engines[..]), picks)
    {
      if engines.Length > 1 {
        ghost var s0 := engines[..];
        for ix := 0 to engines.Length
          invariant engines[..] == ShuffleUpTo(s0, picks, ix)
        {
          var x := picks[ix];
          var t := engines[x];
          engines[x] := engines[ix];
          engines[ix] := t;
        }
      }
    }

    function Name(): (name: string)
      reads this, base, engines
      ensures |name| > |base.Name()| + 2
      ensures name[..|base.Name()| + 2] == base.Name() + " ("
      ensures name[|name| - 1] == ')'
      ensures name[|base.Name()| + 2 .. |name| - 1] == Join(EngineNames(engines[..]), ",")
    {
      base.Name() + " (" + Join(EngineNames(engines[..]), ",") + ")"
    }

    /**
     * `yourTurn` as written: the turn starts, the current engine answers
     * `answer`, the rotation advances, and the turn is never ended, because
     * the end is only scheduled when `minTime` exceeds 10 and it is 1.
     */
    method YourTurn(tryAgain: bool, now: int, answer: GoResult) returns (r: TurnAnswer)
      requires Valid()
      modifies this, base
      ensures Valid() && base.allowsTakeback
      ensures r == TurnAnswer(ChosenMove(answer), old(engines[engineIx]), answer)
      ensures current == r.engine && lastResult == Some(answer)
      ensures lastEngineIx == old(engineIx)
      ensures engineIx == NextIndex(old(engineIx), engines.Length, tryAgain)
      ensures base.State() == StartTurnStep(old(base.State()), now)
    {
      base.StartTurn(now);
      var engine := engines[engineIx];
      current := engine;
      lastResult := Some(answer);
      lastEngineIx := engineIx;
      if !tryAgain && engines.Length > 1 {
        engineIx := engineIx + 1;
        if engineIx >= engines.Length {
          engineIx := 0;
        }
      }
      r := TurnAnswer(ChosenMove(answer), engine, answer);
    }

    /** `yourTurn` with the turn ended as intended, at time `end`. */
    method YourTurnEndingTurn(tryAgain: bool, now: int, end: int, answer: GoResult) returns (r: TurnAnswer)
      requires Valid()
      modifies this, base
      ensures Valid() && base.allowsTakeback
      ensures r == TurnAnswer(ChosenMove(answer), old(engines[engineIx]), answer)
      ensures current == r.engine && lastResult == Some(answer)
      ensures lastEngineIx == old(engineIx)
      ensures engineIx == NextIndex(old(engineIx), engines.Length, tryAgain)
      ensures base.State() == EndTurnStep(StartTurnStep(old(base.State()), now), end)
    {
      r := YourTurn(tryAgain, now, answer);
      base.EndTurn(end);
    }

    /** `takeBack`: go back to the engine that played the last turn. */
    method TakeBack()
      requires Valid()
      modifies this
      ensures Valid()
      ensures engineIx == old(lastEngineIx) && lastEngineIx == old(lastEngineIx)
      ensures current == old(current) && lastResult == old(lastResult)
    {
      engineIx := lastEngineIx;
    }
  }

  // ---------------------------------------------------------------------------
  // The turn that never ends
  // ---------------------------------------------------------------------------

  /**
   * As written, the engine player stays in its turn after answering, so a
   * move of its colour sensed on the board afterwards is never checked for a
   * take-back gesture, and no time is charged.
   */
  lemma TakebackGestureIgnoredAsWritten(s: PlayerState, now: int, m: BoardMove)
    requires !s.paused
    ensures var after := StartTurnStep(s, now);
      && after.inTurn
      && after.remaining == s.remaining
      && !OnMoveStep(after, m, true).1
  {
  }

  /** With the turn ended, the next move of its colour is checked, and the turn's duration is charged. */
  lemma TakebackGestureCheckedWhenEnded(s: PlayerState, now: int, end: int, m: BoardMove)
    requires !s.paused
    ensures var after := EndTurnStep(StartTurnStep(s, now), end);
      && !after.inTurn
      && after.remaining == s.remaining - (end - now)
      && OnMoveStep(after, m, true).1
  {
  }
}
