/**
 * The pure decisions of the game coordinator (lib/chess-game.js): the
 * layout the physical board must show after a move, when it is in sync,
 * how move text is read, where an en-passant capture removes its pawn,
 * how the end of a game is reported, what counts as a take-back gesture,
 * and how a saved move list with `undo_N` entries is replayed.
 */
module GameLogic {
  import opened Wrappers
  import opened Utils
  import opened ChessRules
  import Players

  // ---------------------------------------------------------------------------
  // The layout a move must leave on the physical board
  // ---------------------------------------------------------------------------

  /** One cell of the expected layout; with a colour given, the other side's pieces show as empty. */
  function ShownCell(sq: Square, clr: Option<Color>): char {
    match sq
    case None => '.'
    case Some(p) => if clr.None? || p.color == clr.value then Symbol(p) else '.'
  }

  /** The layout `syncBoard` builds from the engine's board. */
  function Expected(board: Board, clr: Option<Color>): (raw: string)
    ensures |raw| == 64
  {
    seq(64, i requires 0 <= i < 64 => ShownCell(board[i], clr))
  }

  /** The row-by-row loop of `syncBoard` that builds the expected layout. */
  method ExpectedLayout(board: Board, clr: Option<Color>) returns (raw: string)
    ensures raw == Expected(board, clr)
  {
    raw := "";
    for r := 0 to 8
      invariant raw == Expected(board, clr)[..8 * r]
    {
      for f := 0 to 8
        invariant raw == Expected(board, clr)[..8 * r + f]
      {
        var sq := board[8 * r + f];
        if sq.None? {
          raw := raw + ".";
        } else if clr.None? || sq.value.color == clr.value {
          raw := raw + [Symbol(sq.value)];
        } else {
          raw := raw + ".";
        }
      }
    }
  }

  /**
   * The physical board's view of one colour: that colour's pieces, every
   * other cell empty. The board driver is not part of this model; this is
   * the behaviour the coordinator relies on.
   */
  function ByColor(layout: string, c: Color): (r: string)
    ensures |r| == |layout|
  {
    seq(|layout|, i requires 0 <= i < |layout| =>
      if (c == White && IsWhite(layout[i])) || (c == Black && IsBlack(layout[i])) then layout[i] else '.')
  }

  /** A square's layout letter is white exactly when the piece is. */
  lemma SymbolColour(p: Piece)
    ensures IsWhite(Symbol(p)) <==> p.color == White
    ensures IsBlack(Symbol(p)) <==> p.color == Black
  {
  }

  /** Without a colour the expected layout is the engine's layout. */
  lemma ExpectedUncoloured(board: Board)
    ensures Expected(board, None) == Layout(board)
  {
  }

  /** With a colour, the expected layout is that colour's view of the engine's layout. */
  lemma ExpectedIsColourView(board: Board, c: Color)
    ensures Expected(board, Some(c)) == ByColor(Layout(board), c)
  {
    forall i | 0 <= i < 64
      ensures Expected(board, Some(c))[i] == ByColor(Layout(board), c)[i]
    {
      if board[i].Some? {
        SymbolColour(board[i].value);
      }
    }
  }

  /** Taking a colour's view twice changes nothing. */
  lemma ByColorIdempotent(layout: string, c: Color)
    ensures ByColor(ByColor(layout, c), c) == ByColor(layout, c)
  {
  }

  /** Where an en-passant capture removes its pawn; `square` is None when the index is off the board. */
  datatype EpInfo = EpInfo(index: int, square: Option<string>)

  /**
   * `isSync`: the physical board shows the colour's pieces as expected and,
   * after an en-passant capture, the captured pawn's square is empty.
   */
  function IsSync(physical: string, raw: string, c: Color, ep: Option<EpInfo>): (r: bool)
    ensures r ==> |physical| == |raw|
    ensures r && ep.Some? && ep.value.square.Some? ==>
      0 <= ep.value.index < |physical| && IsEmpty(physical[ep.value.index])
  {
    && ByColor(physical, c) == raw
    && (ep.None? || ep.value.square.None?
        || (0 <= ep.value.index < |physical| && IsEmpty(physical[ep.value.index])))
  }

  /** A physical board that shows the engine's position is in sync after any move but an en-passant capture. */
  lemma ShowingPositionIsSync(board: Board, c: Color)
    ensures IsSync(Layout(board), Expected(board, Some(c)), c, None)
  {
    ExpectedIsColourView(board, c);
  }

  /**
   * Sync compares one colour only: it holds exactly when the physical
   * board's cells agree with the engine's on every square where either shows
   * a piece of that colour.
   */
  lemma SyncIsColourAgreement(physical: string, board: Board, c: Color)
    requires |physical| == 64
    ensures IsSync(physical, Expected(board, Some(c)), c, None) <==>
      forall i :: 0 <= i < 64 ==> ByColor(physical, c)[i] == ByColor(Layout(board), c)[i]
  {
    ExpectedIsColourView(board, c);
  }

  /** A piece still standing on the captured pawn's square keeps the board out of sync. */
  lemma EpBlocksSync(physical: string, raw: string, c: Color, ep: EpInfo)
    requires ep.square.Some? && 0 <= ep.index < |physical| && !IsEmpty(physical[ep.index])
    ensures !IsSync(physical, raw, c, Some(ep))
  {
  }

  // ---------------------------------------------------------------------------
  // En passant
  // ---------------------------------------------------------------------------

  /** The captured pawn stands one rank behind the capture square, seen from the capturer. */
  function EpFor(to: string, c: Color): (r: EpInfo)
    ensures r.square.Some? <==> 0 <= r.index < 64
    ensures r.square.Some? ==> SquareIndex(r.square.value) == r.index
  {
    var index := SquareIndex(to) + (if c == White then 8 else -8);
    if 0 <= index < 64 then SquareIndexInverts(index); EpInfo(index, Some(SquareName(index)))
    else EpInfo(index, None)
  }

  /**
   * For a capture onto a square of the board, the captured pawn's square has
   * the same file and a rank one lower (white capturing) or one higher
   * (black capturing); it exists unless the capture square is on the edge rank.
   */
  lemma EpSquareBehind(to: string, c: Color)
    requires SquareIndex(to) >= 0
    ensures var ep := EpFor(to, c);
      && (ep.square.Some? <==> (if c == White then to[1] != '1' else to[1] != '8'))
      && (ep.square.Some? ==>
            ep.square.value[0] == to[0]
            && ep.square.value[1] as int == to[1] as int + (if c == White then -1 else 1))
  {
  }

  /** An en-passant capture lands on the sixth (white) or third (black) rank, so its pawn square exists. */
  lemma EpCaptureSquareExists(to: string, c: Color)
    requires SquareIndex(to) >= 0
    requires to[1] == (if c == White then '6' else '3')
    ensures EpFor(to, c).square == Some([to[0], if c == White then '5' else '4'])
  {
    EpSquareBehind(to, c);
  }

  // ---------------------------------------------------------------------------
  // Reading moves
  // ---------------------------------------------------------------------------

  function Min(a: int, b: int): int {
    if a < b then a else b
  }

  /** JavaScript's `substr(start, len)` for non-negative arguments: clamped at the end of the text. */
  function Substr(s: string, start: nat, len: nat): (r: string)
    ensures |r| <= len
  {
    s[Min(start, |s|)..Min(start + len, |s|)]
  }

  /** A move given as text: two characters from, two to, one promotion. */
  function ParseMoveText(m: string): (d: MoveDesc)
    ensures d.from + d.to + d.promotion == m[..Min(5, |m|)]
    ensures |d.from| == Min(2, |m|) && |d.to| == Min(2, |m| - |d.from|)
    ensures |d.promotion| == Min(1, |m| - |d.from| - |d.to|)
  {
    MoveDesc(Substr(m, 0, 2), Substr(m, 2, 2), Substr(m, 4, 1))
  }

  /** A move sensed on the board, named by the engine's square table. */
  function SensedDesc(m: Players.BoardMove): MoveDesc {
    MoveDesc(SquareName(m.from), SquareName(m.to), m.promotion)
  }

  /** Reading back the text of two squares and an optional promotion letter gives them back. */
  lemma ParseMoveRoundTrip(from: string, to: string, promotion: string)
    requires |from| == 2 && |to| == 2 && |promotion| <= 1
    ensures ParseMoveText(from + to + promotion) == MoveDesc(from, to, promotion)
  {
    var m := from + to + promotion;
    assert m[0..2] == from;
    assert m[2..4] == to;
    assert m[4..|m|] == promotion;
  }

  /** Text written from a sensed move reads back as the same move request. */
  lemma SensedTextReadsBack(m: Players.BoardMove)
    requires |m.promotion| <= 1
    ensures ParseMoveText(SquareName(m.from) + SquareName(m.to) + m.promotion) == SensedDesc(m)
  {
    ParseMoveRoundTrip(SquareName(m.from), SquareName(m.to), m.promotion);
  }

  // ---------------------------------------------------------------------------
  // End of game
  // ---------------------------------------------------------------------------

  datatype EndResult = Draw | Stalemate | Threefold | Checkmate(winner: Color) {
    /** The `result` text reported. */
    function Text(): string {
      match this
      case Draw => "draw"
      case Stalemate => "stalemate"
      case Threefold => "threefold repetition"
      case Checkmate(_) => "checkmate"
    }
  }

  /** `checkEndGame`: the first verdict that holds, in a fixed order; the side not to move wins a mate. */
  function CheckEndGame(v: Verdicts, turn: Color): (r: Option<EndResult>)
    ensures r.None? <==> !v.draw && !v.stalemate && !v.threefold && !v.checkmate
    ensures r == Some(Draw) <==> v.draw
    ensures r == Some(Stalemate) <==> !v.draw && v.stalemate
    ensures r == Some(Threefold) <==> !v.draw && !v.stalemate && v.threefold
    ensures r.Some? && r.value.Checkmate? <==> !v.draw && !v.stalemate && !v.threefold && v.checkmate
    ensures r.Some? && r.value.Checkmate? ==> r.value.winner == turn.Opposite() && r.value.winner != turn
  {
    if v.draw then Some(Draw)
    else if v.stalemate then Some(Stalemate)
    else if v.threefold then Some(Threefold)
    else if v.checkmate then Some(Checkmate(if turn == White then Black else White))
    else None
  }

  // ---------------------------------------------------------------------------
  // Take-back gesture
  // ---------------------------------------------------------------------------

  /** `checkTakeback`'s test: the sensed move puts the last move's piece back, by the side that made it. */
  function IsTakebackGesture(last: MoveRecord, c: Color, m: Players.BoardMove): (r: bool)
    ensures r ==> c == last.color
    ensures r ==> SquareIndex(last.from) == m.to && SquareIndex(last.to) == m.from
  {
    SquareIndexInverts(m.to);
    SquareIndexInverts(m.from);
    last.from == SquareName(m.to) && last.to == SquareName(m.from) && c.Code() == last.color.Code()
  }

  /** The gesture is exactly the reverse of the last move, by its own side. */
  lemma TakebackGestureReverses(last: MoveRecord, c: Color, m: Players.BoardMove)
    ensures IsTakebackGesture(last, c, m) <==>
      m.from == SquareIndex(last.to) && m.to == SquareIndex(last.from) && c == last.color
  {
    SquareIndexInverts(m.from);
    SquareIndexInverts(m.to);
  }

  // ---------------------------------------------------------------------------
  // Replaying a saved move list
  // ---------------------------------------------------------------------------

  /** JavaScript's `split` on a one-character separator: empty parts are kept. */
  function Split(s: string, sep: char): (parts: seq<string>)
    ensures |parts| >= 1
    ensures forall i :: 0 <= i < |parts| ==> sep !in parts[i]
  {
    if s == [] then [[]]
    else
      var rest := Split(s[1..], sep);
      if s[0] == sep then [[]] + rest else [[s[0]] + rest[0]] + rest[1..]
  }

  /** Joining the parts with the separator gives the text back. */
  lemma {:induction false} SplitJoin(s: string, sep: char)
    ensures Players.Join(Split(s, sep), [sep]) == s
  {
    if s != [] {
      var rest := Split(s[1..], sep);
      SplitJoin(s[1..], sep);
      if s[0] == sep {
        assert Split(s, sep)[1..] == rest;
      } else {
        var parts := Split(s, sep);
        assert parts[1..] == rest[1..];
        if |rest| > 1 {
          assert rest[1..][1..] == rest[2..];
          assert Players.Join(rest, [sep]) == rest[0] + [sep] + Players.Join(rest[1..], [sep]);
        }
      }
    }
  }

  /** A separator after text without one ends the first part; the rest splits on its own. */
  lemma {:induction false} SplitAfter(a: string, t: string, sep: char)
    requires sep !in a
    ensures Split(a + [sep] + t, sep) == [a] + Split(t, sep)
  {
    if a == [] {
      assert ([sep] + t)[1..] == t;
    } else {
      var s := a + [sep] + t;
      assert s[0] == a[0] && s[1..] == a[1..] + [sep] + t;
      assert a[0] in a;
      SplitAfter(a[1..], t, sep);
      assert [a[0]] + a[1..] == a;
    }
  }

  /** Splitting parts joined by a separator none of them holds gives the parts back. */
  lemma {:induction false} JoinSplit(parts: seq<string>, sep: char)
    requires |parts| >= 1
    requires forall i :: 0 <= i < |parts| ==> sep !in parts[i]
    ensures Split(Players.Join(parts, [sep]), sep) == parts
  {
    if |parts| == 1 {
      SplitNone(parts[0], sep);
    } else {
      JoinSplit(parts[1..], sep);
      SplitAfter(parts[0], Players.Join(parts[1..], [sep]), sep);
      assert [parts[0]] + parts[1..] == parts;
    }
  }

  /** Text without the separator on either side of one separator splits into exactly those two parts. */
  lemma {:induction false} SplitTwo(a: string, b: string, sep: char)
    requires sep !in a && sep !in b
    ensures Split(a + [sep] + b, sep) == [a, b]
  {
    if a == [] {
      assert ([sep] + b)[1..] == b;
      SplitNone(b, sep);
    } else {
      var s := a + [sep] + b;
      assert s[0] == a[0] && s[1..] == a[1..] + [sep] + b;
      assert a[0] in a;
      SplitTwo(a[1..], b, sep);
      assert [a[0]] + a[1..] == a;
    }
  }

  lemma {:induction false} SplitNone(s: string, sep: char)
    requires sep !in s
    ensures Split(s, sep) == [s]
  {
    if s != [] {
      assert s[0] in s;
      SplitNone(s[1..], sep);
      assert [s[0]] + s[1..] == s;
    }
  }

  predicate StartsWith(s: string, prefix: string) {
    |prefix| <= |s| && s[..|prefix|] == prefix
  }

  predicate IsDecimal(c: char) {
    '0' <= c <= '9'
  }

  /** The number of decimal digits at the front of `s`. */
  function DigitRun(s: string): (k: nat)
    ensures k <= |s|
    ensures forall i :: 0 <= i < k ==> IsDecimal(s[i])
    ensures k < |s| ==> !IsDecimal(s[k])
  {
    if s == [] || !IsDecimal(s[0]) then 0 else 1 + DigitRun(s[1..])
  }

  /** The value of a string of decimal digits. */
  function DigitsValue(s: string): nat {
    if s == [] then 0 else 10 * DigitsValue(s[..|s| - 1]) + (s[|s| - 1] as int - '0' as int) % 10
  }

  /** JavaScript's `parseInt(s)` in base 10: an optional sign, then the leading digits; None for NaN. */
  function ParseInt(s: string): (r: Option<int>)
    ensures r.Some? ==> s != [] && (IsDecimal(s[0]) || s[0] == '-' || s[0] == '+')
    ensures r.Some? && s[0] != '-' ==> r.value >= 0
  {
    var signed := |s| > 0 && (s[0] == '-' || s[0] == '+');
    var body := if signed then s[1..] else s;
    var k := DigitRun(body);
    var v: int := DigitsValue(body[..k]);
    if k == 0 then None
    else if signed && s[0] == '-' then Some(-v)
    else Some(v)
  }

  /** The decimal text of a natural number. */
  function NatText(n: nat): (t: string)
    ensures |t| >= 1
    ensures forall i :: 0 <= i < |t| ==> IsDecimal(t[i])
  {
    if n < 10 then [('0' as int + n) as char] else NatText(n / 10) + [('0' as int + n % 10) as char]
  }

  lemma {:induction false} NatTextValue(n: nat)
    ensures DigitsValue(NatText(n)) == n
  {
    if n >= 10 {
      NatTextValue(n / 10);
      var t := NatText(n);
      assert t[..|t| - 1] == NatText(n / 10);
    }
  }

  lemma {:induction false} DigitRunStops(t: string, rest: string)
    requires forall i :: 0 <= i < |t| ==> IsDecimal(t[i])
    requires rest == [] || !IsDecimal(rest[0])
    ensures DigitRun(t + rest) == |t|
  {
    if t != [] {
      assert (t + rest)[1..] == t[1..] + rest;
      DigitRunStops(t[1..], rest);
    }
  }

  /** `parseInt` reads a number's decimal text back, whatever non-digit text follows it. */
  lemma ParseIntReadsNatText(n: nat, rest: string)
    requires rest == [] || !IsDecimal(rest[0])
    ensures ParseInt(NatText(n) + rest) == Some(n)
  {
    var t := NatText(n);
    DigitRunStops(t, rest);
    assert (t + rest)[..|t|] == t;
    NatTextValue(n);
  }

  /** Text that does not start with a sign or a digit is not a number. */
  lemma ParseIntRejects(s: string)
    requires s == [] || (!IsDecimal(s[0]) && s[0] != '-' && s[0] != '+')
    ensures ParseInt(s).None?
  {
  }

  /** How many moves an `undo...` entry takes back: the number after the first '_', none for NaN or below 1. */
  function UndoTimes(token: string): (r: nat)
    ensures '_' !in token ==> r == 0
    ensures r > 0 ==> |Split(token, '_')| > 1 && ParseInt(Split(token, '_')[1]) == Some(r)
  {
    var parts := Split(token, '_');
    assert '_' !in token ==> parts == [token] by {
      if '_' !in token { SplitNone(token, '_'); }
    }
    var count := if |parts| > 1 then ParseInt(parts[1]) else None;
    match count
    case Some(c) => if c > 0 then c else 0
    case None => 0
  }

  /** The entry that takes back `k` moves. */
  function UndoToken(k: nat): string {
    "undo_" + NatText(k)
  }

  lemma UndoTokenCount(k: nat)
    ensures StartsWith(UndoToken(k), "undo")
    ensures UndoTimes(UndoToken(k)) == k
  {
    var t := UndoToken(k);
    assert t == "undo" + ['_'] + NatText(k);
    SplitTwo("undo", NatText(k), '_');
    ParseIntReadsNatText(k, []);
    assert NatText(k) + [] == NatText(k);
  }

  /** `k` successive undos. */
  function UndoN(p: Position, k: nat): (r: Position)
    ensures |r.history| == if k <= |p.history| then |p.history| - k else 0
  {
    if k == 0 then p else Undo(UndoN(p, k - 1)).0
  }

  /** `k` undos drop exactly the last `k` history entries, or all of them when there are fewer. */
  lemma {:induction false} UndoNDropsLast(p: Position, k: nat)
    ensures UndoN(p, k).history == p.history[..if k <= |p.history| then |p.history| - k else 0]
  {
    if k > 0 {
      UndoNDropsLast(p, k - 1);
    }
  }

  /** One entry of the saved list: an undo entry takes moves back, anything else is played as SAN. */
  function ReplayToken(p: Position, token: string, legal: Oracle): (r: Position)
    ensures StartsWith(token, "undo") ==> |r.history| <= |p.history|
    ensures !StartsWith(token, "undo") && legal(p, San(token)).None? ==> r == p
    ensures |r.history| <= |p.history| + 1
  {
    if StartsWith(token, "undo") then UndoN(p, UndoTimes(token)) else Apply(p, San(token), legal).0
  }

  function Replay(p: Position, tokens: seq<string>, legal: Oracle): (r: Position)
    ensures |r.history| <= |p.history| + |tokens|
    decreases |tokens|
  {
    if tokens == [] then p else ReplayToken(Replay(p, tokens[..|tokens| - 1], legal), tokens[|tokens| - 1], legal)
  }

  /** The whole saved list, split on spaces; an empty list replays nothing. */
  function ReplayMoves(p: Position, moves: string, legal: Oracle): (r: Position)
    ensures moves == [] ==> r == p
    ensures moves != [] && ' ' !in moves ==> r == ReplayToken(p, moves, legal)
  {
    if moves == [] then p
    else
      assert ' ' !in moves ==> Replay(p, Split(moves, ' '), legal) == ReplayToken(p, moves, legal) by {
        if ' ' !in moves {
          SplitNone(moves, ' ');
          assert [moves][..0] == [];
          assert Replay(p, [], legal) == p;
        }
      }
      Replay(p, Split(moves, ' '), legal)
  }

  /** Every entry is a legal move in turn (no undo entries). */
  predicate AllLegal(p: Position, tokens: seq<string>, legal: Oracle) {
    forall j :: 0 <= j < |tokens| ==>
      !StartsWith(tokens[j], "undo") && legal(Replay(p, tokens[..j], legal), San(tokens[j])).Some?
  }

  /** Undoing after a legal entry gives back the position before it. */
  lemma UndoLastEntry(p: Position, tokens: seq<string>, legal: Oracle, j: nat)
    requires AllLegal(p, tokens, legal) && j < |tokens|
    ensures Undo(Replay(p, tokens[..j + 1], legal)).0 == Replay(p, tokens[..j], legal)
  {
    assert tokens[..j + 1][..j] == tokens[..j];
    UndoReversesApply(Replay(p, tokens[..j], legal), San(tokens[j]), legal);
  }

  /** `k` undos after legal moves return to the position before the last `k` of them. */
  lemma {:induction false} UndoNAfterLegal(p: Position, tokens: seq<string>, legal: Oracle, k: nat)
    requires AllLegal(p, tokens, legal) && k <= |tokens|
    ensures UndoN(Replay(p, tokens, legal), k) == Replay(p, tokens[..|tokens| - k], legal)
  {
    if k == 0 {
      assert tokens[..|tokens|] == tokens;
    } else {
      UndoNAfterLegal(p, tokens, legal, k - 1);
      UndoOneMore(p, tokens, legal, k);
    }
  }

  /** The inductive step: one more undo steps back over one more legal entry. */
  lemma UndoOneMore(p: Position, tokens: seq<string>, legal: Oracle, k: nat)
    requires AllLegal(p, tokens, legal) && 0 < k <= |tokens|
    requires UndoN(Replay(p, tokens, legal), k - 1) == Replay(p, tokens[..|tokens| - (k - 1)], legal)
    ensures UndoN(Replay(p, tokens, legal), k) == Replay(p, tokens[..|tokens| - k], legal)
  {
    UndoLastEntry(p, tokens, legal, |tokens| - k);
  }

  /** A saved list of legal moves followed by `undo_k` replays to the list without its last `k` moves. */
  lemma ReplayWithUndo(p: Position, tokens: seq<string>, legal: Oracle, k: nat)
    requires AllLegal(p, tokens, legal) && k <= |tokens|
    ensures Replay(p, tokens + [UndoToken(k)], legal) == Replay(p, tokens[..|tokens| - k], legal)
  {
    var all := tokens + [UndoToken(k)];
    assert all[..|all| - 1] == tokens;
    UndoTokenCount(k);
    UndoNAfterLegal(p, tokens, legal, k);
  }

  /** Legal moves grow the history by one entry each. */
  lemma {:induction false} LegalReplayGrows(p: Position, tokens: seq<string>, legal: Oracle)
    requires AllLegal(p, tokens, legal)
    ensures |Replay(p, tokens, legal).history| == |p.history| + |tokens|
    decreases |tokens|
  {
    if tokens != [] {
      var init := tokens[..|tokens| - 1];
      assert AllLegal(p, init, legal) by {
        forall j | 0 <= j < |init|
          ensures !StartsWith(init[j], "undo") && legal(Replay(p, init[..j], legal), San(init[j])).Some?
        {
          assert init[..j] == tokens[..j];
        }
      }
      LegalReplayGrows(p, init, legal);
    }
  }
}
