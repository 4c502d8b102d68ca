/** Pseudo-legal move generation on a board value: the six piece rules, the
    row-major board scan, the attack test built on it, and castling. These
    functions are the specifications the generator methods of `GameState`
    are proved against. */
module MoveGen {
  import opened Wrappers
  import opened ChessBoard
  import opened Moves
  import opened Castling

  // ---------------------------------------------------------------------
  // Direction tables, in the order the rules walk them.

  const RookDirections: seq<(int, int)> := [(0, 1), (0, -1), (1, 0), (-1, 0)]
  const BishopDirections: seq<(int, int)> := [(1, 1), (1, -1), (-1, 1), (-1, -1)]
  const KnightOffsets: seq<(int, int)> :=
    [(1, 2), (1, -2), (-1, 2), (-1, -2), (2, 1), (2, -1), (-2, 1), (-2, -1)]
  const KingOffsets: seq<(int, int)> :=
    [(0, 1), (0, -1), (1, 0), (-1, 0), (1, 1), (1, -1), (-1, 1), (-1, -1)]

  /** A unit step of a ray: each component in -1..1, not both zero. */
  predicate IsDirection(dr: int, dc: int) {
    -1 <= dr <= 1 && -1 <= dc <= 1 && (dr != 0 || dc != 0)
  }

  predicate AllDirections(dirs: seq<(int, int)>) {
    forall i :: 0 <= i < |dirs| ==> IsDirection(dirs[i].0, dirs[i].1)
  }

  // ---------------------------------------------------------------------
  // Pawns (getPawnMoves).

  /** A diagonal pawn step onto (tr, tc): a capture of an enemy piece, or
      else an en-passant capture when (tr, tc) is the en-passant square. */
  function PawnCapture(b: Board, whiteToMove: bool, ep: Option<Square>,
                       r: int, c: int, tr: int, tc: int): seq<Move>
    requires InBoard(r, c) && InBoard(tr, tc)
  {
    if IsEnemy(b[tr][tc], whiteToMove) then [NewMove(Sq(r, c), Sq(tr, tc), b)]
    else if ep == Some(Sq(tr, tc)) then [NewMove(Sq(r, c), Sq(tr, tc), b, isEnpassantMove := true)]
    else []
  }

  /** Row direction of a pawn of the side to move. */
  function Forward(whiteToMove: bool): int {
    if whiteToMove then -1 else 1
  }

  /** The forward moves of the pawn of the side to move on (r, c): one step
      onto an empty square, and two from the starting row when both squares
      are empty. Only the black branch checks that the step stays on the
      board; the white one relies on there being no white pawn on row 0. */
  function PawnPushes(b: Board, whiteToMove: bool, r: int, c: int): seq<Move>
    requires InBoard(r, c)
    requires whiteToMove ==> r >= 1
    requires !whiteToMove ==> r <= 6
  {
    if whiteToMove then
      if b[r - 1][c] == Empty then
        [NewMove(Sq(r, c), Sq(r - 1, c), b)]
        + (if r == 6 && b[r - 2][c] == Empty then [NewMove(Sq(r, c), Sq(r - 2, c), b)] else [])
      else []
    else
      if r + 1 <= 7 && b[r + 1][c] == Empty then
        [NewMove(Sq(r, c), Sq(r + 1, c), b)]
        + (if r == 1 && b[r + 2][c] == Empty then [NewMove(Sq(r, c), Sq(r + 2, c), b)] else [])
      else []
  }

  /** The moves of the pawn of the side to move on (r, c): the forward moves,
      then the capture toward column c - 1, then the one toward c + 1. */
  function PawnMoves(b: Board, whiteToMove: bool, ep: Option<Square>, r: int, c: int): seq<Move>
    requires InBoard(r, c)
    requires whiteToMove ==> r >= 1
    requires !whiteToMove ==> r <= 6
  {
    var fr := r + Forward(whiteToMove);
    PawnPushes(b, whiteToMove, r, c)
    + (if c - 1 >= 0 then PawnCapture(b, whiteToMove, ep, r, c, fr, c - 1) else [])
    + (if c + 1 <= 7 then PawnCapture(b, whiteToMove, ep, r, c, fr, c + 1) else [])
  }

  // ---------------------------------------------------------------------
  // Knights and kings (getKnightMoves, getKingMoves): single steps.

  /** The step from (r, c) by (dr, dc), when it lands on the board on an
      empty or enemy square. */
  function StepMove(b: Board, whiteToMove: bool, r: int, c: int, dr: int, dc: int): seq<Move>
    requires InBoard(r, c)
  {
    if InBoard(r + dr, c + dc) && (b[r + dr][c + dc] == Empty || IsEnemy(b[r + dr][c + dc], whiteToMove))
    then [NewMove(Sq(r, c), Sq(r + dr, c + dc), b)]
    else []
  }

  /** The steps for the first k offsets of the table, in table order. */
  function StepMoves(b: Board, whiteToMove: bool, r: int, c: int,
                     offsets: seq<(int, int)>, k: nat): seq<Move>
    requires InBoard(r, c) && k <= |offsets|
  {
    if k == 0 then []
    else StepMoves(b, whiteToMove, r, c, offsets, k - 1)
         + StepMove(b, whiteToMove, r, c, offsets[k - 1].0, offsets[k - 1].1)
  }

  // ---------------------------------------------------------------------
  // Rooks, bishops and queens (getRookMoves, getBishopMoves, getQueenMoves).

  /** How many more unit steps along (dr, dc) stay on the board from
      (nr, nc): a bound on the rest of a ray. */
  function RayMeasure(dr: int, dc: int, nr: int, nc: int): int {
    (if dr > 0 then 7 - nr else if dr < 0 then nr else 0)
    + (if dc > 0 then 7 - nc else if dc < 0 then nc else 0)
  }

  /** The rest of the ray of the piece on (r, c) in direction (dr, dc),
      after the ray has reached (nr, nc): a move onto each empty square,
      stopping after the first enemy square and before the first own one. */
  function RayMoves(b: Board, whiteToMove: bool, r: int, c: int,
                    dr: int, dc: int, nr: int, nc: int): seq<Move>
    requires InBoard(r, c) && InBoard(nr, nc) && IsDirection(dr, dc)
    decreases RayMeasure(dr, dc, nr, nc)
  {
    if InBoard(nr + dr, nc + dc) then
      var tr, tc := nr + dr, nc + dc;
      if b[tr][tc] == Empty then
        [NewMove(Sq(r, c), Sq(tr, tc), b)] + RayMoves(b, whiteToMove, r, c, dr, dc, tr, tc)
      else if IsEnemy(b[tr][tc], whiteToMove) then
        [NewMove(Sq(r, c), Sq(tr, tc), b)]
      else []
    else []
  }

  /** The rays for the first k directions of the table, in table order. */
  function RaysMoves(b: Board, whiteToMove: bool, r: int, c: int,
                     dirs: seq<(int, int)>, k: nat): seq<Move>
    requires InBoard(r, c) && k <= |dirs| && AllDirections(dirs)
  {
    if k == 0 then []
    else RaysMoves(b, whiteToMove, r, c, dirs, k - 1)
         + RayMoves(b, whiteToMove, r, c, dirs[k - 1].0, dirs[k - 1].1, r, c)
  }

  function RookMoves(b: Board, whiteToMove: bool, r: int, c: int): seq<Move>
    requires InBoard(r, c)
  {
    RaysMoves(b, whiteToMove, r, c, RookDirections, 4)
  }

  function BishopMoves(b: Board, whiteToMove: bool, r: int, c: int): seq<Move>
    requires InBoard(r, c)
  {
    RaysMoves(b, whiteToMove, r, c, BishopDirections, 4)
  }

  /** A queen moves as a bishop, then as a rook. */
  function QueenMoves(b: Board, whiteToMove: bool, r: int, c: int): seq<Move>
    requires InBoard(r, c)
  {
    BishopMoves(b, whiteToMove, r, c) + RookMoves(b, whiteToMove, r, c)
  }

  function KnightMoves(b: Board, whiteToMove: bool, r: int, c: int): seq<Move>
    requires InBoard(r, c)
  {
    StepMoves(b, whiteToMove, r, c, KnightOffsets, 8)
  }

  function KingMoves(b: Board, whiteToMove: bool, r: int, c: int): seq<Move>
    requires InBoard(r, c)
  {
    StepMoves(b, whiteToMove, r, c, KingOffsets, 8)
  }

  // ---------------------------------------------------------------------
  // The board scan (getAllPossibleMoves).

  /** The rule for a piece kind (the engine's `moveFunctions` table). */
  function PieceMoves(b: Board, whiteToMove: bool, ep: Option<Square>, r: int, c: int, kind: Kind): seq<Move>
    requires InBoard(r, c)
    requires kind == Pawn ==> (whiteToMove ==> r >= 1) && (!whiteToMove ==> r <= 6)
  {
    match kind
    case Pawn => PawnMoves(b, whiteToMove, ep, r, c)
    case Rook => RookMoves(b, whiteToMove, r, c)
    case Bishop => BishopMoves(b, whiteToMove, r, c)
    case Knight => KnightMoves(b, whiteToMove, r, c)
    case Queen => QueenMoves(b, whiteToMove, r, c)
    case King => KingMoves(b, whiteToMove, r, c)
  }

  /** The moves of whatever stands on (r, c), if it belongs to the side to
      move. */
  function SquareMoves(b: Board, whiteToMove: bool, ep: Option<Square>, r: int, c: int): seq<Move>
    requires InBoard(r, c) && NoPawnOnLastRank(b)
  {
    match b[r][c]
    case Empty => []
    case P(color, kind) =>
      if color == SideColor(whiteToMove) then
        assert kind == Pawn ==> (whiteToMove ==> r >= 1) && (!whiteToMove ==> r <= 6);
        PieceMoves(b, whiteToMove, ep, r, c, kind)
      else []
  }

  /** The moves of the first c squares of row r, left to right. */
  function RowMoves(b: Board, whiteToMove: bool, ep: Option<Square>, r: int, c: nat): seq<Move>
    requires 0 <= r < 8 && c <= 8 && NoPawnOnLastRank(b)
  {
    if c == 0 then [] else RowMoves(b, whiteToMove, ep, r, c - 1) + SquareMoves(b, whiteToMove, ep, r, c - 1)
  }

  /** The moves of the first r rows, top to bottom. */
  function RowsBefore(b: Board, whiteToMove: bool, ep: Option<Square>, r: nat): seq<Move>
    requires r <= 8 && NoPawnOnLastRank(b)
  {
    if r == 0 then [] else RowsBefore(b, whiteToMove, ep, r - 1) + RowMoves(b, whiteToMove, ep, r - 1, 8)
  }

  /** Every pseudo-legal move of the side to move, castling aside: the
      squares in row-major order. */
  function AllPossibleMoves(b: Board, whiteToMove: bool, ep: Option<Square>): seq<Move>
    requires NoPawnOnLastRank(b)
  {
    RowsBefore(b, whiteToMove, ep, 8)
  }

  // ---------------------------------------------------------------------
  // Attacks (squareUnderAttack, inCheck).

  /** Some move of the list ends on (r, c). */
  predicate Targets(moves: seq<Move>, r: int, c: int) {
    exists i :: 0 <= i < |moves| && moves[i].endRow == r && moves[i].endCol == c
  }

  /** The side NOT to move has a pseudo-legal move onto (r, c). */
  predicate UnderAttack(b: Board, whiteToMove: bool, ep: Option<Square>, r: int, c: int)
    requires NoPawnOnLastRank(b)
  {
    Targets(AllPossibleMoves(b, !whiteToMove, ep), r, c)
  }

  /** The king of the side to move, located by the king cache, is attacked. */
  predicate InCheck(b: Board, whiteToMove: bool, ep: Option<Square>, whiteKing: Square, blackKing: Square)
    requires NoPawnOnLastRank(b)
  {
    if whiteToMove then UnderAttack(b, whiteToMove, ep, whiteKing.row, whiteKing.col)
    else UnderAttack(b, whiteToMove, ep, blackKing.row, blackKing.col)
  }

  // ---------------------------------------------------------------------
  // Castling (getCastleMoves and its two helpers).

  predicate KingsideRight(cr: CastleRights, whiteToMove: bool) {
    (whiteToMove && cr.wks) || (!whiteToMove && cr.bks)
  }

  predicate QueensideRight(cr: CastleRights, whiteToMove: bool) {
    (whiteToMove && cr.wqs) || (!whiteToMove && cr.bqs)
  }

  /** Kingside castling of the king on (r, c): the two squares toward the
      rook are empty and neither is attacked. */
  function KingsideCastleMoves(b: Board, whiteToMove: bool, ep: Option<Square>, r: int, c: int): seq<Move>
    requires InBoard(r, c) && c + 2 <= 7 && NoPawnOnLastRank(b)
  {
    if b[r][c + 1] == Empty && b[r][c + 2] == Empty then
      if !UnderAttack(b, whiteToMove, ep, r, c + 1) && !UnderAttack(b, whiteToMove, ep, r, c + 2)
      then [NewMove(Sq(r, c), Sq(r, c + 2), b, isCastleMove := true)]
      else []
    else []
  }

  /** Queenside castling of the king on (r, c): the three squares toward
      the rook are empty and the two next to the king are not attacked. */
  function QueensideCastleMoves(b: Board, whiteToMove: bool, ep: Option<Square>, r: int, c: int): seq<Move>
    requires InBoard(r, c) && c >= 3 && NoPawnOnLastRank(b)
  {
    if b[r][c - 1] == Empty && b[r][c - 2] == Empty && b[r][c - 3] == Empty then
      if !UnderAttack(b, whiteToMove, ep, r, c - 1) && !UnderAttack(b, whiteToMove, ep, r, c - 2)
      then [NewMove(Sq(r, c), Sq(r, c - 2), b, isCastleMove := true)]
      else []
    else []
  }

  /** What castling needs of the king square to stay on the board. */
  predicate CastleSquaresOk(cr: CastleRights, whiteToMove: bool, r: int, c: int) {
    InBoard(r, c) && (KingsideRight(cr, whiteToMove) ==> c + 2 <= 7)
    && (QueensideRight(cr, whiteToMove) ==> c >= 3)
  }

  /** The castle moves of the king on (r, c): none while in check, else each
      side for which the right is held. */
  function CastleMoves(b: Board, whiteToMove: bool, ep: Option<Square>, cr: CastleRights,
                       whiteKing: Square, blackKing: Square, r: int, c: int): seq<Move>
    requires NoPawnOnLastRank(b) && CastleSquaresOk(cr, whiteToMove, r, c)
  {
    if InCheck(b, whiteToMove, ep, whiteKing, blackKing) then []
    else
      (if KingsideRight(cr, whiteToMove) then KingsideCastleMoves(b, whiteToMove, ep, r, c) else [])
      + (if QueensideRight(cr, whiteToMove) then QueensideCastleMoves(b, whiteToMove, ep, r, c) else [])
  }
}
