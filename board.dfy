/** Square contents and the 8x8 grid of the chess engine.
    Row 0 is rank 8 (Black's back rank), row 7 is rank 1 (White's back rank);
    a grid cell holds either the empty marker ("--") or a colour and a kind
    ("wp", "bK", ...). */
module ChessBoard {

  datatype Color = White | Black

  datatype Kind = Pawn | Knight | Bishop | Rook | Queen | King

  /** `Empty` is the "--" code; `P(color, kind)` a two-character piece code. */
  datatype Piece = Empty | P(color: Color, kind: Kind)

  /** A (row, col) pair; the source uses plain integer tuples, which may lie
      off the board while a move rule probes past an edge. */
  datatype Square = Sq(row: int, col: int)

  predicate InBoard(r: int, c: int) {
    0 <= r < 8 && 0 <= c < 8
  }

  predicate OnBoard(s: Square) {
    InBoard(s.row, s.col)
  }

  predicate IsGrid(g: seq<seq<Piece>>) {
    |g| == 8 && forall r :: 0 <= r < 8 ==> |g[r]| == 8
  }

  type Board = g: seq<seq<Piece>> | IsGrid(g) witness seq(8, _ => seq(8, _ => Empty))

  /** The board after one cell assignment `board[r][c] = p`. */
  function Set(b: Board, r: int, c: int, p: Piece): (b': Board)
    requires InBoard(r, c)
    ensures b'[r][c] == p
    ensures forall i, j :: InBoard(i, j) && (i != r || j != c) ==> b'[i][j] == b[i][j]
  {
    b[r := b[r][c := p]]
  }

  /** The colour whose turn it is, from the engine's `whiteToMove` flag. */
  function SideColor(whiteToMove: bool): Color {
    if whiteToMove then White else Black
  }

  function Opponent(c: Color): Color {
    if c == White then Black else White
  }

  /** True when `p` starts with the enemy letter of the side to move
      (`enemy = 'b' if whiteToMove else 'w'`). */
  predicate IsEnemy(p: Piece, whiteToMove: bool) {
    p.P? && p.color == Opponent(SideColor(whiteToMove))
  }

  /** True when `p` belongs to the side to move. */
  predicate IsOwn(p: Piece, whiteToMove: bool) {
    p.P? && p.color == SideColor(whiteToMove)
  }

  /** A pawn never stands on its own last rank: promotion replaces it on
      arrival. The pawn rules index one row ahead of the pawn without a
      bounds guard, so this is what they need of the board. */
  predicate NoPawnOnLastRank(b: Board) {
    forall c :: 0 <= c < 8 ==> b[0][c] != P(White, Pawn) && b[7][c] != P(Black, Pawn)
  }

  /** A row may hold this piece without breaking `NoPawnOnLastRank`. */
  predicate PawnRowOk(p: Piece, r: int) {
    (r == 0 ==> p != P(White, Pawn)) && (r == 7 ==> p != P(Black, Pawn))
  }

  lemma SetKeepsNoPawnOnLastRank(b: Board, r: int, c: int, p: Piece)
    requires InBoard(r, c) && NoPawnOnLastRank(b) && PawnRowOk(p, r)
    ensures NoPawnOnLastRank(Set(b, r, c, p))
  {
    var b' := Set(b, r, c, p);
    forall j | 0 <= j < 8
      ensures b'[0][j] != P(White, Pawn) && b'[7][j] != P(Black, Pawn)
    {
      assert b[0][j] != P(White, Pawn) && b[7][j] != P(Black, Pawn);
    }
  }

  function BackRank(color: Color): seq<Piece> {
    [P(color, Rook), P(color, Knight), P(color, Bishop), P(color, Queen),
     P(color, King), P(color, Bishop), P(color, Knight), P(color, Rook)]
  }

  /** The standard starting position. */
  function InitialBoard(): (b: Board)
    ensures b[0][4] == P(Black, King) && b[7][4] == P(White, King)
    ensures NoPawnOnLastRank(b)
  {
    [BackRank(Black),
     seq(8, _ => P(Black, Pawn)),
     seq(8, _ => Empty),
     seq(8, _ => Empty),
     seq(8, _ => Empty),
     seq(8, _ => Empty),
     seq(8, _ => P(White, Pawn)),
     BackRank(White)]
  }
}
