/**
 * Board-layout codecs of the coordinator (lib/utils.js).
 *
 * A layout is 64 cells, rank 8 first and file a first within a rank; a cell
 * is '.' when the square is empty and a piece letter otherwise (upper case
 * for white, lower case for black). The codecs convert between a layout and
 * the piece-placement field of a FEN record, as section 16.1 of the PGN
 * standard defines it, and render a layout as a text diagram.
 */
module Utils {

  /** Eight empty cells: one rank with no piece on it. */
  const EmptyRank: string := "........"

  /**
   * The layout of the standard starting position; the text is
   * "rnbqkbnrpppppppp" + 32 '.' + "PPPPPPPPRNBQKBNR", written rank by rank.
   */
  const DefaultRaw: string :=
    "rnbqkbnr" + "pppppppp" + EmptyRank + EmptyRank + EmptyRank + EmptyRank + "PPPPPPPP" + "RNBQKBNR"

  /** The piece-placement field of the standard starting position, "rnbqkbnr/pppppppp/8/8/8/8/PPPPPPPP/RNBQKBNR". */
  const DefaultPlacement: string :=
    "rnbqkbnr" + "/" + "pppppppp" + "/" + "8" + "/" + "8" + "/" + "8" + "/" + "8" + "/" + "PPPPPPPP" + "/" + "RNBQKBNR"

  /** The full FEN record of the standard starting position. */
  const DefaultFen: string := DefaultPlacement + " w KQkq - 0 1"

  // ---------------------------------------------------------------------------
  // Cell classification
  // ---------------------------------------------------------------------------

  /** JavaScript's toUpperCase, restricted to the ASCII letters. */
  function ToUpper(c: char): char {
    if 'a' <= c <= 'z' then (c as int - 32) as char else c
  }

  /** JavaScript's toLowerCase, restricted to the ASCII letters. */
  function ToLower(c: char): char {
    if 'A' <= c <= 'Z' then (c as int + 32) as char else c
  }

  /** An empty cell; no piece letter is one. */
  function IsEmpty(c: char): (r: bool)
    ensures r ==> !IsPieceLetter(c)
  {
    c == '.'
  }

  /** A cell is white when it is not empty and upper-casing leaves it unchanged. */
  function IsWhite(c: char): (r: bool)
    ensures r ==> !IsEmpty(c)
    ensures 'A' <= c <= 'Z' ==> r
    ensures 'a' <= c <= 'z' ==> !r
  {
    !IsEmpty(c) && ToUpper(c) == c
  }

  /** A cell is black when it is not empty and lower-casing leaves it unchanged. */
  function IsBlack(c: char): (r: bool)
    ensures r ==> !IsEmpty(c)
    ensures 'a' <= c <= 'z' ==> r
    ensures 'A' <= c <= 'Z' ==> !r
  {
    !IsEmpty(c) && ToLower(c) == c
  }

  /** The letters a layout cell may hold besides '.'. */
  predicate IsPieceLetter(c: char) {
    c in "pnbrqkPNBRQK"
  }

  /** A well-formed 64-cell layout: every cell is empty or holds a piece letter. */
  predicate IsLayout(raw: string) {
    |raw| == 64 && forall i :: 0 <= i < 64 ==> raw[i] == '.' || IsPieceLetter(raw[i])
  }

  // ---------------------------------------------------------------------------
  // fenToRaw
  // ---------------------------------------------------------------------------

  function Dots(n: nat): string {
    seq(n, _ => '.')
  }

  /** The cells that one character of a placement field stands for. */
  function CellsOf(c: char): string {
    if '1' <= c <= '8' then Dots(c as int - '0' as int)
    else if c == '/' then []
    else [c]
  }

  /** Every cell a placement field describes, with no cap on their number. */
  function Expand(fen: string): string {
    if fen == [] then [] else CellsOf(fen[0]) + Expand(fen[1..])
  }

  /**
   * The scan of fenToRaw: characters are consumed one at a time, but only
   * while fewer than 64 cells have been written. A digit is always expanded
   * in full, so the scan can end with up to 71 cells.
   */
  function Scan(fen: string, written: string): string
    decreases |fen|
  {
    if fen == [] || |written| >= 64 then written
    else Scan(fen[1..], written + CellsOf(fen[0]))
  }

  /** The cells fenToRaw writes for `fen`, in order. */
  function FenCells(fen: string): string {
    Scan(fen, [])
  }

  /** A slot of the array fenToRaw returns: never written (undefined), or a cell. */
  datatype Slot = Hole | Cell(ch: char)

  /** The array `new Array(64)` after `written` has been stored from index 0 on. */
  function Filled(written: string): seq<Slot> {
    var n := if |written| < 64 then 64 else |written|;
    seq(n, i requires 0 <= i < n => if i < |written| then Cell(written[i]) else Hole)
  }

  /** `raw[i] = v` on a JavaScript array: overwrite, or grow by one at the end. */
  function Store(raw: seq<Slot>, i: nat, v: Slot): seq<Slot>
    requires i <= |raw|
  {
    if i < |raw| then raw[i := v] else raw + [v]
  }

  /** The scan reads one character of the placement field at a time. */
  lemma ScanStep(fen: string, fenX: nat, written: string)
    requires fenX < |fen| && |written| < 64
    ensures Scan(fen[fenX..], written) == Scan(fen[fenX + 1..], written + CellsOf(fen[fenX]))
  {
    assert fen[fenX..][1..] == fen[fenX + 1..];
  }

  lemma FilledStore(written: string, c: char)
    ensures |written| <= |Filled(written)|
    ensures Filled(written + [c]) == Store(Filled(written), |written|, Cell(c))
  {
    var a, b := Filled(written + [c]), Store(Filled(written), |written|, Cell(c));
    assert |a| == |b|;
    forall i | 0 <= i < |a| ensures a[i] == b[i] {
    }
  }

  /** fenToRaw: expands the placement field into layout cells. */
  method FenToRaw(fen: string) returns (raw: seq<Slot>)
    ensures raw == Filled(FenCells(fen))
  {
    var rawX, fenX := 0, 0;
    raw := seq(64, _ => Hole);
    ghost var written: string := [];
    assert raw == Filled(written);
    while fenX < |fen| && rawX < 64
      invariant 0 <= fenX <= |fen|
      invariant rawX == |written|
      invariant raw == Filled(written)
      invariant Scan(fen[fenX..], written) == FenCells(fen)
    {
      var p := fen[fenX];
      ghost var w0 := written;
      ScanStep(fen, fenX, written);
      if '1' <= p <= '8' {
        var pn := p as int - '0' as int;
        ghost var before := written;
        for k := 0 to pn
          invariant rawX == |written|
          invariant written == before + Dots(k)
          invariant raw == Filled(written)
        {
          FilledStore(written, '.');
          raw := Store(raw, rawX, Cell('.'));
          rawX := rawX + 1;
          written := written + ['.'];
          assert Dots(k + 1) == Dots(k) + ['.'];
        }
      } else if p != '/' {
        FilledStore(written, p);
        raw := Store(raw, rawX, Cell(p));
        rawX := rawX + 1;
        written := written + [p];
      }
      assert written == w0 + CellsOf(p);
      fenX := fenX + 1;
    }
  }

  lemma CellsOfLength(c: char)
    ensures |CellsOf(c)| <= 8
  {
  }

  /**
   * The scan writes a prefix of the uncapped expansion; it stops short of the
   * whole expansion only once 64 cells are written, and it never exceeds 64
   * cells by more than one digit's worth.
   */
  lemma {:induction false} ScanBounds(fen: string, written: string)
    ensures written <= Scan(fen, written) <= written + Expand(fen)
    ensures |Scan(fen, written)| < 64 ==> Scan(fen, written) == written + Expand(fen)
    ensures |written| < 64 ==> |Scan(fen, written)| < 72
  {
    if fen == [] || |written| >= 64 {
    } else {
      var w := written + CellsOf(fen[0]);
      CellsOfLength(fen[0]);
      ScanBounds(fen[1..], w);
      assert w + Expand(fen[1..]) == written + Expand(fen);
    }
  }

  /** fenToRaw writes the uncapped expansion's prefix, stopping only at 64 cells. */
  lemma FenCellsCap(fen: string)
    ensures FenCells(fen) <= Expand(fen)
    ensures |FenCells(fen)| < 72
    ensures |FenCells(fen)| < 64 ==> FenCells(fen) == Expand(fen)
    ensures |Expand(fen)| >= 64 ==> |FenCells(fen)| >= 64
  {
    ScanBounds(fen, []);
  }

  /** When the whole expansion fits in 64 cells, the scan writes all of it. */
  lemma {:induction false} ScanExact(fen: string, written: string)
    requires |written| + |Expand(fen)| <= 64
    ensures Scan(fen, written) == written + Expand(fen)
  {
    if fen == [] {
    } else if |written| >= 64 {
      assert Expand(fen) == [];
    } else {
      ScanExact(fen[1..], written + CellsOf(fen[0]));
    }
  }

  /** Scanning a concatenation is scanning the second part from where the first stopped. */
  lemma {:induction false} ScanConcat(a: string, b: string, written: string)
    ensures Scan(a + b, written) == Scan(b, Scan(a, written))
  {
    if a == [] {
      assert a + b == b;
    } else if |written| >= 64 {
      assert Scan(b, written) == written;
    } else {
      assert (a + b)[1..] == a[1..] + b;
      ScanConcat(a[1..], b, written + CellsOf(a[0]));
    }
  }

  lemma {:induction false} ExpandConcat(a: string, b: string)
    ensures Expand(a + b) == Expand(a) + Expand(b)
  {
    if a == [] {
      assert a + b == b;
    } else {
      assert (a + b)[1..] == a[1..] + b;
      ExpandConcat(a[1..], b);
    }
  }

  // ---------------------------------------------------------------------------
  // rawToFen
  // ---------------------------------------------------------------------------

  /** The decimal digit for 0..9, as `fen += dotN` writes a small count. */
  function Digit(n: nat): char
    requires n <= 9
  {
    ('0' as int + n) as char
  }

  /** The text of a pending run of empty cells: nothing for 0, else its length. */
  function Run(n: nat): string
    requires n <= 9
  {
    if n == 0 then [] else [Digit(n)]
  }

  /** The encoding of the rest of a rank, `run` empty cells having been counted already. */
  function RankText(cells: string, run: nat): string
    requires run + |cells| <= 8
    decreases |cells|
  {
    if cells == [] then Run(run)
    else if cells[0] == '.' then RankText(cells[1..], run + 1)
    else Run(run) + [cells[0]] + RankText(cells[1..], 0)
  }

  /** Rank `r` of a layout, counted from rank 8 (r = 0) down to rank 1 (r = 7). */
  function Rank(raw: string, r: nat): string
    requires |raw| == 64 && r < 8
  {
    raw[8 * r .. 8 * r + 8]
  }

  /** The encoding of rank `r`. */
  function Segment(raw: string, r: nat): string
    requires |raw| == 64 && r < 8
  {
    RankText(Rank(raw, r), 0)
  }

  /** What rawToFen has emitted after its first `r` ranks. */
  function FenUpTo(raw: string, r: nat): string
    requires |raw| == 64 && r <= 8
  {
    if r == 0 then []
    else FenUpTo(raw, r - 1) + Segment(raw, r - 1) + (if r < 8 then "/" else "")
  }

  /** The placement field rawToFen produces. */
  function Placement(raw: string): string
    requires |raw| == 64
  {
    FenUpTo(raw, 8)
  }

  /** rawToFen: compresses a 64-cell layout into a placement field. */
  method RawToFen(raw: string) returns (fen: string)
    requires |raw| == 64
    ensures fen == Placement(raw)
  {
    fen := "";
    var dotN := 0;
    var rawX := 0;
    for r := 0 to 8
      invariant rawX == 8 * r
      invariant fen == FenUpTo(raw, r)
    {
      dotN := 0;
      ghost var start := fen;
      for x := 0 to 8
        invariant rawX == 8 * r + x
        invariant dotN <= x
        invariant fen + RankText(raw[rawX .. 8 * r + 8], dotN) == start + Segment(raw, r)
      {
        var p := raw[rawX];
        ghost var rest := raw[rawX .. 8 * r + 8];
        assert rest[0] == p && rest[1..] == raw[rawX + 1 .. 8 * r + 8];
        if p == '.' {
          dotN := dotN + 1;
        } else {
          ghost var f0, d0 := fen, dotN;
          if dotN != 0 {
            fen := fen + [Digit(dotN)];
            dotN := 0;
          }
          fen := fen + [p];
          assert fen == f0 + Run(d0) + [p];
          EmitPiece(f0, d0, rest);
        }
        rawX := rawX + 1;
      }
      if dotN != 0 {
        fen := fen + [Digit(dotN)];
      }
      if r < 7 {
        fen := fen + "/";
      }
    }
  }

  /** Writing a piece after the pending run leaves the rest of the rank to encode. */
  lemma EmitPiece(done: string, run: nat, rest: string)
    requires rest != [] && rest[0] != '.' && run + |rest| <= 8
    ensures done + Run(run) + [rest[0]] + RankText(rest[1..], 0) == done + RankText(rest, run)
  {
    assert RankText(rest, run) == Run(run) + [rest[0]] + RankText(rest[1..], 0);
  }

  predicate IsDigitChar(c: char) {
    '0' <= c <= '9'
  }

  /** Cells a rank may hold without breaking the round trip: no digits and no '/'. */
  predicate PlainCells(cells: string) {
    forall i :: 0 <= i < |cells| ==> !IsDigitChar(cells[i]) && cells[i] != '/'
  }

  /** No two digits stand next to each other. */
  predicate NoAdjacentDigits(t: string) {
    forall i :: 0 <= i < |t| - 1 ==> !(IsDigitChar(t[i]) && IsDigitChar(t[i + 1]))
  }

  /** The encoding of a rank expands back to the rank. */
  lemma {:induction false} RankTextExpands(cells: string, run: nat)
    requires run + |cells| <= 8
    requires PlainCells(cells)
    ensures Expand(RankText(cells, run)) == Dots(run) + cells
  {
    if cells == [] {
      assert Dots(run) + cells == Dots(run);
    } else if cells[0] == '.' {
      RankTextExpands(cells[1..], run + 1);
      assert Dots(run + 1) + cells[1..] == Dots(run) + cells;
    } else {
      var tail := RankText(cells[1..], 0);
      RankTextExpands(cells[1..], 0);
      assert RankText(cells, run) == Run(run) + ([cells[0]] + tail);
      ExpandConcat(Run(run), [cells[0]] + tail);
      ExpandConcat([cells[0]], tail);
      assert Expand(Run(run)) == Dots(run);
      assert Expand([cells[0]]) == [cells[0]];
      assert Dots(0) + cells[1..] == cells[1..];
      assert [cells[0]] + cells[1..] == cells;
    }
  }

  /**
   * Every maximal run of empty cells becomes a single digit: the encoding of
   * a rank never holds two adjacent digits.
   */
  lemma {:induction false} RankTextRuns(cells: string, run: nat)
    requires run + |cells| <= 8
    requires PlainCells(cells)
    ensures NoAdjacentDigits(RankText(cells, run))
  {
    if cells == [] {
    } else if cells[0] == '.' {
      RankTextRuns(cells[1..], run + 1);
    } else {
      var t, tail := RankText(cells, run), RankText(cells[1..], 0);
      RankTextRuns(cells[1..], 0);
      var head := Run(run) + [cells[0]];
      assert t == head + tail;
      forall i | 0 <= i < |t| - 1 ensures !(IsDigitChar(t[i]) && IsDigitChar(t[i + 1])) {
        if i >= |head| {
          assert t[i] == tail[i - |head|] && t[i + 1] == tail[i - |head| + 1];
        } else if i == |head| - 1 {
          assert t[i] == cells[0];
        } else {
          assert t[i + 1] == cells[0];
        }
      }
    }
  }

  /** The encoding of a rank holds no '/', is not empty and is no longer than the rank. */
  lemma {:induction false} RankTextSize(cells: string, run: nat)
    requires run + |cells| <= 8
    requires PlainCells(cells)
    ensures '/' !in RankText(cells, run)
    ensures run + |cells| > 0 ==> 0 < |RankText(cells, run)|
    ensures |RankText(cells, run)| <= |cells| + (if run > 0 then 1 else 0)
  {
    if cells == [] {
    } else if cells[0] == '.' {
      RankTextSize(cells[1..], run + 1);
    } else {
      RankTextSize(cells[1..], 0);
      assert RankText(cells, run) == Run(run) + [cells[0]] + RankText(cells[1..], 0);
    }
  }

  lemma LayoutRanksPlain(raw: string, r: nat)
    requires IsLayout(raw) && r < 8
    ensures PlainCells(Rank(raw, r))
  {
    var rank := Rank(raw, r);
    forall i | 0 <= i < |rank| ensures !IsDigitChar(rank[i]) && rank[i] != '/' {
      assert rank[i] == raw[8 * r + i];
    }
  }

  /** The first r ranks of the placement expand back to the first 8 * r cells. */
  lemma {:induction false} ExpandFenUpTo(raw: string, r: nat)
    requires IsLayout(raw) && r <= 8
    ensures Expand(FenUpTo(raw, r)) == raw[..8 * r]
  {
    if r > 0 {
      ExpandFenUpTo(raw, r - 1);
      ExpandNextRank(raw, r);
      assert raw[..8 * (r - 1)] + Rank(raw, r - 1) == raw[..8 * r];
    }
  }

  /** One more rank of the placement expands to one more rank of cells. */
  lemma ExpandNextRank(raw: string, r: nat)
    requires IsLayout(raw) && 0 < r <= 8
    ensures Expand(FenUpTo(raw, r)) == Expand(FenUpTo(raw, r - 1)) + Rank(raw, r - 1)
  {
    var prefix, rank := FenUpTo(raw, r - 1), Rank(raw, r - 1);
    var seg := Segment(raw, r - 1);
    var sep: string := if r < 8 then "/" else "";
    assert FenUpTo(raw, r) == prefix + seg + sep;
    LayoutRanksPlain(raw, r - 1);
    RankTextExpands(rank, 0);
    assert Expand(seg) == rank by {
      assert Dots(0) + rank == rank;
    }
    assert Expand(sep) == [] by {
      if sep != [] {
        assert sep[1..] == [];
      }
    }
    ExpandConcat(prefix + seg, sep);
    ExpandConcat(prefix, seg);
  }

  /** Round trip: expanding the placement of a layout gives the layout back. */
  lemma RoundTrip(raw: string)
    requires IsLayout(raw)
    ensures FenCells(Placement(raw)) == raw
    ensures Filled(FenCells(Placement(raw))) == seq(64, i requires 0 <= i < 64 => Cell(raw[i]))
  {
    ExpandFenUpTo(raw, 8);
    assert raw[..64] == raw;
    ScanExact(Placement(raw), []);
    assert [] + raw == raw;
  }

  /** Each rank segment of the placement has the shape RankText promises. */
  lemma SegmentShape(raw: string, r: nat)
    requires IsLayout(raw) && r < 8
    ensures '/' !in Segment(raw, r)
    ensures 1 <= |Segment(raw, r)| <= 8
    ensures NoAdjacentDigits(Segment(raw, r))
    ensures Expand(Segment(raw, r)) == Rank(raw, r)
  {
    LayoutRanksPlain(raw, r);
    RankTextSize(Rank(raw, r), 0);
    RankTextRuns(Rank(raw, r), 0);
    RankTextExpands(Rank(raw, r), 0);
    assert Dots(0) + Rank(raw, r) == Rank(raw, r);
  }

  /**
   * The placement is eight rank segments joined by seven '/', with no '/'
   * at either end; each segment is one to eight characters long, holds no
   * '/' and no two adjacent digits, and expands back to its rank.
   */
  lemma PlacementShape(raw: string)
    requires IsLayout(raw)
    ensures Placement(raw) ==
      Segment(raw, 0) + "/" + Segment(raw, 1) + "/" + Segment(raw, 2) + "/" + Segment(raw, 3) + "/" +
      Segment(raw, 4) + "/" + Segment(raw, 5) + "/" + Segment(raw, 6) + "/" + Segment(raw, 7)
    ensures forall r :: 0 <= r < 8 ==>
      && '/' !in Segment(raw, r)
      && 1 <= |Segment(raw, r)| <= 8
      && NoAdjacentDigits(Segment(raw, r))
      && Expand(Segment(raw, r)) == Rank(raw, r)
  {
    forall r | 0 <= r < 8
      ensures '/' !in Segment(raw, r) && 1 <= |Segment(raw, r)| <= 8
      ensures NoAdjacentDigits(Segment(raw, r))
      ensures Expand(Segment(raw, r)) == Rank(raw, r)
    {
      SegmentShape(raw, r);
    }
    var s0, s1, s2, s3 := Segment(raw, 0), Segment(raw, 1), Segment(raw, 2), Segment(raw, 3);
    var s4, s5, s6, s7 := Segment(raw, 4), Segment(raw, 5), Segment(raw, 6), Segment(raw, 7);
    assert FenUpTo(raw, 1) == s0 + "/";
    assert FenUpTo(raw, 2) == s0 + "/" + s1 + "/";
    assert FenUpTo(raw, 3) == s0 + "/" + s1 + "/" + s2 + "/";
    assert FenUpTo(raw, 4) == s0 + "/" + s1 + "/" + s2 + "/" + s3 + "/";
    assert FenUpTo(raw, 5) == s0 + "/" + s1 + "/" + s2 + "/" + s3 + "/" + s4 + "/";
    assert FenUpTo(raw, 6) == s0 + "/" + s1 + "/" + s2 + "/" + s3 + "/" + s4 + "/" + s5 + "/";
    assert FenUpTo(raw, 7) == s0 + "/" + s1 + "/" + s2 + "/" + s3 + "/" + s4 + "/" + s5 + "/" + s6 + "/";
    assert FenUpTo(raw, 8) == s0 + "/" + s1 + "/" + s2 + "/" + s3 + "/" + s4 + "/" + s5 + "/" + s6 + "/" + s7;
  }

  /** A rank without empty cells is its own encoding. */
  lemma {:induction false} PiecesOnlyRank(cells: string)
    requires |cells| <= 8 && '.' !in cells
    ensures RankText(cells, 0) == cells
  {
    if cells != [] {
      PiecesOnlyRank(cells[1..]);
      assert [cells[0]] + cells[1..] == cells;
    }
  }

  /** A stretch of empty cells is encoded as one digit, its length added to the run. */
  lemma {:induction false} EmptyRunText(cells: string, run: nat)
    requires run + |cells| <= 8 && cells == Dots(|cells|)
    ensures RankText(cells, run) == Run(run + |cells|)
  {
    if cells != [] {
      assert cells[1..] == Dots(|cells| - 1);
      EmptyRunText(cells[1..], run + 1);
    }
  }

  lemma DefaultRanks()
    ensures IsLayout(DefaultRaw)
    ensures Rank(DefaultRaw, 0) == "rnbqkbnr" && Rank(DefaultRaw, 1) == "pppppppp"
    ensures forall r :: 2 <= r < 6 ==> Rank(DefaultRaw, r) == Dots(8)
    ensures Rank(DefaultRaw, 6) == "PPPPPPPP" && Rank(DefaultRaw, 7) == "RNBQKBNR"
  {
    assert EmptyRank == Dots(8);
  }

  /** The two black ranks of the default board are written as their letters. */
  lemma DefaultBlackSegments()
    ensures Segment(DefaultRaw, 0) == "rnbqkbnr" && Segment(DefaultRaw, 1) == "pppppppp"
  {
    DefaultRanks();
    PiecesSegment(0, "rnbqkbnr");
    PiecesSegment(1, "pppppppp");
  }

  /** The two white ranks of the default board are written as their letters. */
  lemma DefaultWhiteSegments()
    ensures Segment(DefaultRaw, 6) == "PPPPPPPP" && Segment(DefaultRaw, 7) == "RNBQKBNR"
  {
    DefaultRanks();
    PiecesSegment(6, "PPPPPPPP");
    PiecesSegment(7, "RNBQKBNR");
  }

  /** A rank of the default board holding only pieces is written as its letters. */
  lemma PiecesSegment(r: nat, text: string)
    requires r < 8 && Rank(DefaultRaw, r) == text && '.' !in text
    ensures Segment(DefaultRaw, r) == text
  {
    PiecesOnlyRank(text);
  }

  lemma DefaultEmptySegments()
    ensures forall r :: 2 <= r < 6 ==> Segment(DefaultRaw, r) == "8"
  {
    DefaultRanks();
    EmptyRunText(Dots(8), 0);
    assert RankText(Dots(8), 0) == "8";
    forall r | 2 <= r < 6 ensures Segment(DefaultRaw, r) == "8" {
      assert Rank(DefaultRaw, r) == Dots(8);
    }
  }

  /** The default layout and the default FEN describe the same position. */
  lemma DefaultsAgree()
    ensures Placement(DefaultRaw) == DefaultPlacement
    ensures FenCells(DefaultFen) == DefaultRaw
  {
    DefaultRanks();
    DefaultBlackSegments();
    DefaultWhiteSegments();
    DefaultEmptySegments();
    PlacementShape(DefaultRaw);
    RoundTrip(DefaultRaw);
    ScanConcat(DefaultPlacement, " w KQkq - 0 1", []);
  }

  /** isStartPos: the FEN is exactly the default one. */
  function IsStartPos(fen: string): (r: bool)
    ensures r ==> FenCells(fen) == DefaultRaw
  {
    DefaultsAgree();
    fen == DefaultFen
  }

  // ---------------------------------------------------------------------------
  // rawToAscii
  // ---------------------------------------------------------------------------

  const Border: string := "   +------------------------+"
  const FileLegend: string := "     a  b  c  d  e  f  g  h"

  /** JavaScript's `slice(lo, hi)`, which clamps both ends to the length. */
  function Slice(data: string, lo: nat, hi: nat): string {
    var a := if lo < |data| then lo else |data|;
    var b := if hi < |data| then hi else |data|;
    if a <= b then data[a..b] else []
  }

  /** JavaScript's `join("  ")` over single-character cells. */
  function Spaced(cells: string): string
    decreases |cells|
  {
    if |cells| <= 1 then cells else [cells[0]] + "  " + Spaced(cells[1..])
  }

  /** Line `i + 1` of the diagram: the rank number, then the eight cells of rank 8 - i. */
  function RankLine(data: string, i: nat): string
    requires i < 8
  {
    " " + [Digit(8 - i)] + " | " + Spaced(Slice(data, 8 * i, 8 * i + 8)) + " |"
  }

  /** rawToAscii: a framed diagram with one line per rank and a file legend. */
  function RawToAscii(data: string): (out: seq<string>)
    ensures |out| == 11
    ensures out[0] == Border && out[9] == Border && out[10] == FileLegend
  {
    [Border] + seq(8, i requires 0 <= i < 8 => RankLine(data, i)) + [Border, FileLegend]
  }

  lemma {:induction false} SpacedAt(cells: string, k: nat)
    requires k < |cells|
    ensures |Spaced(cells)| == 3 * |cells| - 2
    ensures Spaced(cells)[3 * k] == cells[k]
  {
    if |cells| > 1 {
      SpacedAt(cells[1..], if k == 0 then 0 else k - 1);
    }
  }

  /**
   * Every rank line of the diagram of a 64-cell layout is as wide as the
   * frame, starts with the rank number and shows cell 8i + k in column 5 + 3k,
   * so the layout can be read back from the diagram.
   */
  lemma AsciiCells(data: string, i: nat, k: nat)
    requires |data| == 64 && i < 8 && k < 8
    ensures |RawToAscii(data)[i + 1]| == |Border| == 29
    ensures RawToAscii(data)[i + 1][1] == Digit(8 - i)
    ensures RawToAscii(data)[i + 1][5 + 3 * k] == data[8 * i + k]
  {
    var cells := Slice(data, 8 * i, 8 * i + 8);
    assert cells == data[8 * i .. 8 * i + 8];
    SpacedAt(cells, k);
    var line := RankLine(data, i);
    assert line == (" " + [Digit(8 - i)] + " | ") + Spaced(cells) + " |";
    assert RawToAscii(data)[i + 1] == line;
  }
}
