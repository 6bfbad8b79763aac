/**
 * The rules engine (chess.js) as the coordinator sees it.
 *
 * The engine itself is not part of this model. What the coordinator relies
 * on is kept abstract: a position is a board of 64 squares, the side to
 * move and a history of played moves; whether a move is legal and what
 * board results is decided by an oracle function; `undo` pops the history
 * and restores the board and side to move saved with the popped entry.
 */
module ChessRules {
  import opened Wrappers

  datatype Color = White | Black {

    function Opposite(): Color {
      if this == White then Black else White
    }

    /** The engine's colour code: 'w' or 'b' (the first letter of "white"/"black"). */
    function Code(): char {
      if this == White then 'w' else 'b'
    }
  }

  datatype Kind = Pawn | Knight | Bishop | Rook | Queen | King {

    /** The engine's lower-case piece type letter. */
    function Letter(): (c: char)
      ensures 'a' <= c <= 'z'
    {
      match this
      case Pawn => 'p'
      case Knight => 'n'
      case Bishop => 'b'
      case Rook => 'r'
      case Queen => 'q'
      case King => 'k'
    }
  }

  datatype Piece = Piece(kind: Kind, color: Color)

  type Square = Option<Piece>

  /** A board: 64 squares, a8 first, h1 last. */
  type Board = b: seq<Square> | |b| == 64 witness seq(64, _ => None)

  /** An index into the 64 squares. */
  type SquareIx = i: int | 0 <= i < 64

  /** The layout letter of a piece: upper case for white, lower case for black. */
  function Symbol(p: Piece): (c: char)
    ensures p.color == White ==> 'A' <= c <= 'Z'
    ensures p.color == Black ==> 'a' <= c <= 'z'
  {
    var t := p.kind.Letter();
    if p.color == White then (t as int - 32) as char else t
  }

  /** The 64-cell layout of a board (the engine's `toString`). */
  function Layout(board: Board): string {
    seq(64, i requires 0 <= i < 64 => match board[i] case None => '.' case Some(p) => Symbol(p))
  }

  /** The engine's SQUARES table: "a8", "b8", ..., "h8", "a7", ..., "h1". */
  function SquareName(i: SquareIx): (name: string)
    ensures |name| == 2 && 'a' <= name[0] <= 'h' && '1' <= name[1] <= '8'
  {
    [('a' as int + i % 8) as char, ('8' as int - i / 8) as char]
  }

  /** `SQUARES.indexOf(name)`: the index of a square name, -1 for anything else. */
  function SquareIndex(name: string): (i: int)
    ensures -1 <= i < 64
    ensures 0 <= i ==> SquareName(i) == name
    ensures i == -1 ==> forall j: SquareIx :: SquareName(j) != name
  {
    if |name| == 2 && 'a' <= name[0] <= 'h' && '1' <= name[1] <= '8' then
      8 * ('8' as int - name[1] as int) + (name[0] as int - 'a' as int)
    else
      -1
  }

  /** Square names are distinct, so SQUARES.indexOf inverts the table. */
  lemma SquareIndexInverts(i: SquareIx)
    ensures SquareIndex(SquareName(i)) == i
  {
  }

  /** A move as the engine reports it once it is legal (verbose form). */
  datatype MoveRecord = MoveRecord(color: Color, from: string, to: string, flags: string, san: string)

  /** The engine's flag letters for an en-passant capture and for castling. */
  const EpCaptureFlag: char := 'e'
  const KingsideCastleFlag: char := 'k'
  const QueensideCastleFlag: char := 'q'

  /** A move request in the form the coordinator passes to the engine's `move`. */
  datatype MoveDesc = MoveDesc(from: string, to: string, promotion: string)

  datatype Request =
    | San(text: string)     // a move in standard algebraic notation
    | Coords(desc: MoveDesc)

  /** A played move with what `undo` restores. */
  datatype Entry = Entry(record: MoveRecord, board: Board, turn: Color)

  datatype Position = Position(board: Board, turn: Color, history: seq<Entry>)

  /** What the engine makes of a legal request: the next board and the move record. */
  datatype Outcome = Outcome(board: Board, record: MoveRecord)

  /** The engine's legality decision: None for an illegal request. */
  type Oracle = (Position, Request) -> Option<Outcome>

  /** The engine's `move`: a legal request is played, an illegal one changes nothing. */
  function Apply(p: Position, req: Request, legal: Oracle): (r: (Position, Option<MoveRecord>))
    ensures r.1.None? <==> legal(p, req).None?
    ensures r.1.None? ==> r.0 == p
    ensures r.1.Some? ==> |r.0.history| == |p.history| + 1 && r.0.turn == p.turn.Opposite()
  {
    match legal(p, req)
    case None => (p, None)
    case Some(o) => (Position(o.board, p.turn.Opposite(), p.history + [Entry(o.record, p.board, p.turn)]), Some(o.record))
  }

  /** The engine's `undo`: pops the last move, or returns None on an empty history. */
  function Undo(p: Position): (r: (Position, Option<MoveRecord>))
    ensures r.1.None? <==> p.history == []
    ensures p.history == [] ==> r.0 == p
    ensures p.history != [] ==> r.0.history == p.history[..|p.history| - 1]
  {
    if p.history == [] then (p, None)
    else
      var e := p.history[|p.history| - 1];
      (Position(e.board, e.turn, p.history[..|p.history| - 1]), Some(e.record))
  }

  /** `undo` reverses a legal `move` exactly. */
  lemma UndoReversesApply(p: Position, req: Request, legal: Oracle)
    requires legal(p, req).Some?
    ensures Undo(Apply(p, req, legal).0) == (p, Some(legal(p, req).value.record))
  {
    var h := Apply(p, req, legal).0.history;
    assert h[..|h| - 1] == p.history;
  }

  /** The engine's `last_move`: the record of the last move played, if any. */
  function LastMove(p: Position): (m: Option<MoveRecord>)
    ensures m.Some? <==> p.history != []
  {
    if p.history == [] then None else Some(p.history[|p.history| - 1].record)
  }

  /** The engine's end-of-game tests for a position, which the model does not compute. */
  datatype Verdicts = Verdicts(draw: bool, stalemate: bool, threefold: bool, checkmate: bool)
}
