/** What the pseudo-legal generators promise: every move leaves a piece of
    the side to move and lands on the board on an empty or enemy square (or
    on the en-passant square); rays stop at the first occupied square; knight
    and king moves are exactly the single steps of their offset tables. */
module MoveGenProps {
  import opened Wrappers
  import opened ChessBoard
  import opened Moves
  import opened Castling
  import opened MoveGen

  /** The facts every generated (non-castle) move satisfies. */
  predicate PseudoLegal(b: Board, whiteToMove: bool, ep: Option<Square>, m: Move) {
    m.InBoardCoords() && m.StartSq() != m.EndSq()
    && m.pieceMoved == b[m.startRow][m.startCol] && IsOwn(m.pieceMoved, whiteToMove)
    && !m.isCastleMove
    && (m.isPawnPromotion <==> Promotes(m.pieceMoved, m.endRow))
    && (m.isEnpassantMove ==>
          ep == Some(m.EndSq())
          && m.pieceMoved == P(SideColor(whiteToMove), Pawn)
          && m.pieceCaptured == P(Opponent(SideColor(whiteToMove)), Pawn)
          && m.endRow == m.startRow + Forward(whiteToMove)
          && (m.endCol == m.startCol - 1 || m.endCol == m.startCol + 1))
    && (!m.isEnpassantMove ==>
          m.pieceCaptured == b[m.endRow][m.endCol]
          && (m.pieceCaptured == Empty || IsEnemy(m.pieceCaptured, whiteToMove)))
  }

  function Sign(x: int): int {
    if x > 0 then 1 else if x < 0 then -1 else 0
  }

  /** (x, y) lies strictly away from (r, c) in direction (dr, dc), as far as
      signs tell. */
  predicate Heading(r: int, c: int, dr: int, dc: int, x: int, y: int) {
    Sign(x - r) == dr && Sign(y - c) == dc
  }

  // ---------------------------------------------------------------------
  // Soundness, rule by rule.

  lemma PawnCaptureSound(b: Board, whiteToMove: bool, ep: Option<Square>, r: int, c: int, tc: int)
    requires InBoard(r, c) && b[r][c] == P(SideColor(whiteToMove), Pawn)
    requires InBoard(r + Forward(whiteToMove), tc) && (tc == c - 1 || tc == c + 1)
    ensures forall m :: m in PawnCapture(b, whiteToMove, ep, r, c, r + Forward(whiteToMove), tc) ==>
              PseudoLegal(b, whiteToMove, ep, m) && m.StartSq() == Sq(r, c)
  {
  }

  lemma PawnPushesSound(b: Board, whiteToMove: bool, ep: Option<Square>, r: int, c: int)
    requires InBoard(r, c) && b[r][c] == P(SideColor(whiteToMove), Pawn)
    requires whiteToMove ==> r >= 1
    requires !whiteToMove ==> r <= 6
    ensures forall m :: m in PawnPushes(b, whiteToMove, r, c) ==>
              PseudoLegal(b, whiteToMove, ep, m) && m.StartSq() == Sq(r, c)
  {
  }

  lemma PawnMovesSound(b: Board, whiteToMove: bool, ep: Option<Square>, r: int, c: int)
    requires InBoard(r, c) && b[r][c] == P(SideColor(whiteToMove), Pawn)
    requires whiteToMove ==> r >= 1
    requires !whiteToMove ==> r <= 6
    ensures forall m :: m in PawnMoves(b, whiteToMove, ep, r, c) ==>
              PseudoLegal(b, whiteToMove, ep, m) && m.StartSq() == Sq(r, c)
  {
    PawnPushesSound(b, whiteToMove, ep, r, c);
    if c - 1 >= 0 { PawnCaptureSound(b, whiteToMove, ep, r, c, c - 1); }
    if c + 1 <= 7 { PawnCaptureSound(b, whiteToMove, ep, r, c, c + 1); }
  }

  lemma {:induction false} StepMovesSound(b: Board, whiteToMove: bool, r: int, c: int,
                                          offsets: seq<(int, int)>, k: nat)
    requires InBoard(r, c) && k <= |offsets| && IsOwn(b[r][c], whiteToMove)
    requires forall i :: 0 <= i < |offsets| ==> offsets[i] != (0, 0)
    ensures forall m :: m in StepMoves(b, whiteToMove, r, c, offsets, k) ==>
              PseudoLegal(b, whiteToMove, None, m) && m.StartSq() == Sq(r, c)
    ensures forall m :: m in StepMoves(b, whiteToMove, r, c, offsets, k) ==> !m.isEnpassantMove
  {
    if k > 0 {
      StepMovesSound(b, whiteToMove, r, c, offsets, k - 1);
      assert offsets[k - 1] != (0, 0);
    }
  }

  /** Every move of the rest of a ray heads away from the piece in the ray's
      direction and lies further along than the point reached so far. */
  lemma {:induction false} RayMovesSound(b: Board, whiteToMove: bool, r: int, c: int,
                                         dr: int, dc: int, nr: int, nc: int)
    requires InBoard(r, c) && InBoard(nr, nc) && IsDirection(dr, dc) && IsOwn(b[r][c], whiteToMove)
    requires (nr == r && nc == c) || Heading(r, c, dr, dc, nr, nc)
    ensures forall m :: m in RayMoves(b, whiteToMove, r, c, dr, dc, nr, nc) ==>
              PseudoLegal(b, whiteToMove, None, m) && m.StartSq() == Sq(r, c) && !m.isEnpassantMove
              && Heading(r, c, dr, dc, m.endRow, m.endCol)
              && RayMeasure(dr, dc, m.endRow, m.endCol) < RayMeasure(dr, dc, nr, nc)
    decreases RayMeasure(dr, dc, nr, nc)
  {
    if InBoard(nr + dr, nc + dc) {
      var tr, tc := nr + dr, nc + dc;
      assert Heading(r, c, dr, dc, tr, tc);
      if b[tr][tc] == Empty {
        RayMovesSound(b, whiteToMove, r, c, dr, dc, tr, tc);
      }
    }
  }

  lemma {:induction false} RaysMovesSound(b: Board, whiteToMove: bool, r: int, c: int,
                                          dirs: seq<(int, int)>, k: nat)
    requires InBoard(r, c) && k <= |dirs| && AllDirections(dirs) && IsOwn(b[r][c], whiteToMove)
    ensures forall m :: m in RaysMoves(b, whiteToMove, r, c, dirs, k) ==>
              PseudoLegal(b, whiteToMove, None, m) && m.StartSq() == Sq(r, c) && !m.isEnpassantMove
  {
    if k > 0 {
      RaysMovesSound(b, whiteToMove, r, c, dirs, k - 1);
      RayMovesSound(b, whiteToMove, r, c, dirs[k - 1].0, dirs[k - 1].1, r, c);
    }
  }

  /** A move generated for square (r, c) is pseudo-legal and starts there. */
  lemma SquareMovesSound(b: Board, whiteToMove: bool, ep: Option<Square>, r: int, c: int)
    requires InBoard(r, c) && NoPawnOnLastRank(b)
    ensures forall m :: m in SquareMoves(b, whiteToMove, ep, r, c) ==>
              PseudoLegal(b, whiteToMove, ep, m) && m.StartSq() == Sq(r, c)
  {
    match b[r][c]
    case Empty =>
    case P(color, kind) =>
      if color == SideColor(whiteToMove) {
        match kind
        case Pawn => PawnMovesSound(b, whiteToMove, ep, r, c);
        case Knight => StepMovesSound(b, whiteToMove, r, c, KnightOffsets, 8);
        case King => StepMovesSound(b, whiteToMove, r, c, KingOffsets, 8);
        case Rook => RaysMovesSound(b, whiteToMove, r, c, RookDirections, 4);
        case Bishop => RaysMovesSound(b, whiteToMove, r, c, BishopDirections, 4);
        case Queen =>
          RaysMovesSound(b, whiteToMove, r, c, RookDirections, 4);
          RaysMovesSound(b, whiteToMove, r, c, BishopDirections, 4);
      }
  }

  /** Appending two suffixes one after the other appends their
      concatenation. */
  lemma AppendTwo(moves: seq<Move>, a: seq<Move>, b: seq<Move>)
    ensures moves + a + b == moves + (a + b)
  {
  }

  /** Appending three suffixes one after the other appends their
      concatenation. */
  lemma AppendThree(moves: seq<Move>, a: seq<Move>, b: seq<Move>, c: seq<Move>)
    ensures moves + a + b + c == moves + (a + b + c)
  {
    AppendTwo(moves, a, b);
    AppendTwo(moves, a + b, c);
  }

  lemma {:induction false} RowMovesSound(b: Board, whiteToMove: bool, ep: Option<Square>, r: int, c: nat)
    requires 0 <= r < 8 && c <= 8 && NoPawnOnLastRank(b)
    ensures forall m :: m in RowMoves(b, whiteToMove, ep, r, c) ==>
              PseudoLegal(b, whiteToMove, ep, m) && m.startRow == r && m.startCol < c
  {
    if c > 0 {
      RowMovesSound(b, whiteToMove, ep, r, c - 1);
      SquareMovesSound(b, whiteToMove, ep, r, c - 1);
    }
  }

  lemma {:induction false} RowsBeforeSound(b: Board, whiteToMove: bool, ep: Option<Square>, r: nat)
    requires r <= 8 && NoPawnOnLastRank(b)
    ensures forall m :: m in RowsBefore(b, whiteToMove, ep, r) ==>
              PseudoLegal(b, whiteToMove, ep, m) && m.startRow < r
  {
    if r > 0 {
      RowsBeforeSound(b, whiteToMove, ep, r - 1);
      RowMovesSound(b, whiteToMove, ep, r - 1, 8);
    }
  }

  /** Every move `getAllPossibleMoves` produces starts on a piece of the side
      to move and ends on the board, on an empty or enemy square, or, for an
      en-passant capture, on the en-passant square. No castle move is among
      them. */
  lemma AllPossibleMovesSound(b: Board, whiteToMove: bool, ep: Option<Square>)
    requires NoPawnOnLastRank(b)
    ensures forall m :: m in AllPossibleMoves(b, whiteToMove, ep) ==> PseudoLegal(b, whiteToMove, ep, m)
  {
    RowsBeforeSound(b, whiteToMove, ep, 8);
  }

  // ---------------------------------------------------------------------
  // Ray shape: the squares of a ray follow one another in its direction,
  // all but the last are empty, and it goes as far as it may.

  /** The moves s head from (nr, nc) in direction (dr, dc) one square at a
      time: the first ends next to (nr, nc), each next one a step further. */
  predicate Stepwise(dr: int, dc: int, s: seq<Move>, nr: int, nc: int) {
    (s != [] ==> s[0].EndSq() == Sq(nr + dr, nc + dc))
    && forall j :: 0 < j < |s| ==> s[j].endRow == s[j - 1].endRow + dr && s[j].endCol == s[j - 1].endCol + dc
  }

  lemma StepwiseStep(dr: int, dc: int, m: Move, t: seq<Move>, nr: int, nc: int)
    requires m.EndSq() == Sq(nr + dr, nc + dc) && Stepwise(dr, dc, t, nr + dr, nc + dc)
    ensures Stepwise(dr, dc, [m] + t, nr, nc)
  {
    var s := [m] + t;
    forall j | 0 < j < |s|
      ensures s[j].endRow == s[j - 1].endRow + dr && s[j].endCol == s[j - 1].endCol + dc
    {
      assert s[j] == t[j - 1];
      if j > 1 { assert s[j - 1] == t[j - 2]; } else { assert s[j - 1] == m; }
    }
  }

  /** The ray's first square is next to (nr, nc) in its direction, and
      consecutive squares are one step apart in that direction (that they
      all lie on the board is part of `RayMovesSound`). */
  lemma {:induction false} RaySteps(b: Board, whiteToMove: bool, r: int, c: int,
                                    dr: int, dc: int, nr: int, nc: int)
    requires InBoard(r, c) && InBoard(nr, nc) && IsDirection(dr, dc)
    ensures Stepwise(dr, dc, RayMoves(b, whiteToMove, r, c, dr, dc, nr, nc), nr, nc)
    decreases RayMeasure(dr, dc, nr, nc)
  {
    var tr, tc := nr + dr, nc + dc;
    if InBoard(tr, tc) {
      var m := NewMove(Sq(r, c), Sq(tr, tc), b);
      if b[tr][tc] == Empty {
        RaySteps(b, whiteToMove, r, c, dr, dc, tr, tc);
        StepwiseStep(dr, dc, m, RayMoves(b, whiteToMove, r, c, dr, dc, tr, tc), nr, nc);
      } else if IsEnemy(b[tr][tc], whiteToMove) {
        assert Stepwise(dr, dc, [m], nr, nc);
      }
    }
  }

  /** Every move of s but the last ends on an empty square of the board; the
      last ends on the board on an empty square or an enemy piece. */
  predicate ThroughEmpty(b: Board, whiteToMove: bool, s: seq<Move>) {
    (forall j :: 0 <= j < |s| - 1 ==> InBoard(s[j].endRow, s[j].endCol) && b[s[j].endRow][s[j].endCol] == Empty)
    && (s != [] ==>
          var e := s[|s| - 1].EndSq();
          InBoard(e.row, e.col) && (b[e.row][e.col] == Empty || IsEnemy(b[e.row][e.col], whiteToMove)))
  }

  lemma ThroughEmptyStep(b: Board, whiteToMove: bool, m: Move, t: seq<Move>)
    requires InBoard(m.endRow, m.endCol) && b[m.endRow][m.endCol] == Empty && ThroughEmpty(b, whiteToMove, t)
    ensures ThroughEmpty(b, whiteToMove, [m] + t)
  {
    var s := [m] + t;
    forall j | 0 <= j < |s| - 1
      ensures InBoard(s[j].endRow, s[j].endCol) && b[s[j].endRow][s[j].endCol] == Empty
    {
      if j > 0 { assert s[j] == t[j - 1]; }
    }
    if t != [] { assert s[|s| - 1] == t[|t| - 1]; }
  }

  /** Every square of the ray but the last is empty; the last is empty or
      holds an enemy piece. */
  lemma {:induction false} RayOccupancy(b: Board, whiteToMove: bool, r: int, c: int,
                                        dr: int, dc: int, nr: int, nc: int)
    requires InBoard(r, c) && InBoard(nr, nc) && IsDirection(dr, dc)
    ensures ThroughEmpty(b, whiteToMove, RayMoves(b, whiteToMove, r, c, dr, dc, nr, nc))
    decreases RayMeasure(dr, dc, nr, nc)
  {
    var tr, tc := nr + dr, nc + dc;
    if InBoard(tr, tc) {
      var m := NewMove(Sq(r, c), Sq(tr, tc), b);
      if b[tr][tc] == Empty {
        RayOccupancy(b, whiteToMove, r, c, dr, dc, tr, tc);
        ThroughEmptyStep(b, whiteToMove, m, RayMoves(b, whiteToMove, r, c, dr, dc, tr, tc));
      } else if IsEnemy(b[tr][tc], whiteToMove) {
        assert ThroughEmpty(b, whiteToMove, [m]);
      }
    }
  }

  /** The moves s, heading from (nr, nc) in direction (dr, dc), go as far
      as they may: when there are none, the board's edge or a piece of the
      mover's own side is right next to (nr, nc); when the last one ends on
      an empty square, the same holds just beyond it. */
  predicate StoppedAfter(b: Board, whiteToMove: bool, dr: int, dc: int, s: seq<Move>, nr: int, nc: int) {
    (s == [] ==> !InBoard(nr + dr, nc + dc) || IsOwn(b[nr + dr][nc + dc], whiteToMove))
    && (s != [] ==>
          var e := s[|s| - 1].EndSq();
          InBoard(e.row, e.col)
          && (b[e.row][e.col] == Empty ==>
                !InBoard(e.row + dr, e.col + dc) || IsOwn(b[e.row + dr][e.col + dc], whiteToMove)))
  }

  /** A move onto the empty square next to (nr, nc), followed by moves that
      stop properly from there, stops properly from (nr, nc). */
  lemma StoppedAfterStep(b: Board, whiteToMove: bool, dr: int, dc: int, m: Move, t: seq<Move>, nr: int, nc: int)
    requires InBoard(nr + dr, nc + dc) && b[nr + dr][nc + dc] == Empty && m.EndSq() == Sq(nr + dr, nc + dc)
    requires StoppedAfter(b, whiteToMove, dr, dc, t, nr + dr, nc + dc)
    ensures StoppedAfter(b, whiteToMove, dr, dc, [m] + t, nr, nc)
  {
    var s := [m] + t;
    if t == [] {
      assert s[|s| - 1] == m;
    } else {
      assert s[|s| - 1] == t[|t| - 1];
    }
  }

  /** Every ray goes as far as it may. */
  lemma {:induction false} RayMaximal(b: Board, whiteToMove: bool, r: int, c: int,
                                      dr: int, dc: int, nr: int, nc: int)
    requires InBoard(r, c) && InBoard(nr, nc) && IsDirection(dr, dc)
    ensures StoppedAfter(b, whiteToMove, dr, dc, RayMoves(b, whiteToMove, r, c, dr, dc, nr, nc), nr, nc)
    decreases RayMeasure(dr, dc, nr, nc)
  {
    var tr, tc := nr + dr, nc + dc;
    if InBoard(tr, tc) && b[tr][tc] == Empty {
      RayMaximal(b, whiteToMove, r, c, dr, dc, tr, tc);
      StoppedAfterStep(b, whiteToMove, dr, dc, NewMove(Sq(r, c), Sq(tr, tc), b),
                       RayMoves(b, whiteToMove, r, c, dr, dc, tr, tc), nr, nc);
    }
  }

  // ---------------------------------------------------------------------
  // Single steps: exactly the offsets that land on the board on an empty
  // or enemy square.

  /** One step: the move it yields, if any, goes from (r, c) by the offset,
      and it yields one whenever the target is on the board and empty or
      an enemy. */
  lemma StepMoveShape(b: Board, whiteToMove: bool, r: int, c: int, dr: int, dc: int)
    requires InBoard(r, c)
    ensures forall m :: m in StepMove(b, whiteToMove, r, c, dr, dc) ==>
              m.StartSq() == Sq(r, c) && m.EndSq() == Sq(r + dr, c + dc)
    ensures InBoard(r + dr, c + dc) && (b[r + dr][c + dc] == Empty || IsEnemy(b[r + dr][c + dc], whiteToMove)) ==>
              NewMove(Sq(r, c), Sq(r + dr, c + dc), b) in StepMove(b, whiteToMove, r, c, dr, dc)
  {
  }

  /** Every step goes from (r, c) by one of the first k offsets. */
  lemma {:induction false} StepMovesFrom(b: Board, whiteToMove: bool, r: int, c: int,
                                         offsets: seq<(int, int)>, k: nat)
    requires InBoard(r, c) && k <= |offsets|
    ensures forall m :: m in StepMoves(b, whiteToMove, r, c, offsets, k) ==>
              exists j :: 0 <= j < k && m.StartSq() == Sq(r, c)
                          && m.EndSq() == Sq(r + offsets[j].0, c + offsets[j].1)
  {
    if k > 0 {
      StepMovesFrom(b, whiteToMove, r, c, offsets, k - 1);
      var t := StepMoves(b, whiteToMove, r, c, offsets, k - 1);
      var dr, dc := offsets[k - 1].0, offsets[k - 1].1;
      var last := StepMove(b, whiteToMove, r, c, dr, dc);
      StepMoveShape(b, whiteToMove, r, c, dr, dc);
      assert StepMoves(b, whiteToMove, r, c, offsets, k) == t + last;
      forall m: Move | m in t + last
        ensures exists j :: 0 <= j < k && m.StartSq() == Sq(r, c)
                            && m.EndSq() == Sq(r + offsets[j].0, c + offsets[j].1)
      {
        if m !in t {
          assert m in last;
          assert m.EndSq() == Sq(r + offsets[k - 1].0, c + offsets[k - 1].1);
        }
      }
    }
  }

  /** Every one of the first k offsets that lands on the board on an empty
      or enemy square is a step. */
  lemma {:induction false} StepMovesComplete(b: Board, whiteToMove: bool, r: int, c: int,
                                             offsets: seq<(int, int)>, k: nat)
    requires InBoard(r, c) && k <= |offsets|
    ensures forall j :: 0 <= j < k ==>
              var tr, tc := r + offsets[j].0, c + offsets[j].1;
              InBoard(tr, tc) && (b[tr][tc] == Empty || IsEnemy(b[tr][tc], whiteToMove)) ==>
                NewMove(Sq(r, c), Sq(tr, tc), b) in StepMoves(b, whiteToMove, r, c, offsets, k)
  {
    if k > 0 {
      StepMovesComplete(b, whiteToMove, r, c, offsets, k - 1);
      var t := StepMoves(b, whiteToMove, r, c, offsets, k - 1);
      var dr, dc := offsets[k - 1].0, offsets[k - 1].1;
      var last := StepMove(b, whiteToMove, r, c, dr, dc);
      StepMoveShape(b, whiteToMove, r, c, dr, dc);
      assert StepMoves(b, whiteToMove, r, c, offsets, k) == t + last;
      forall j | 0 <= j < k
        ensures var tr, tc := r + offsets[j].0, c + offsets[j].1;
                InBoard(tr, tc) && (b[tr][tc] == Empty || IsEnemy(b[tr][tc], whiteToMove)) ==>
                  NewMove(Sq(r, c), Sq(tr, tc), b) in t + last
      {
        if j == k - 1 {
          assert offsets[j] == (dr, dc);
        }
      }
    }
  }

  // ---------------------------------------------------------------------
  // Castling conditions.

  /** Only the two castles of the king on (r, c) are generated, each only
      with its right held; the kingside one exactly when the side is not in
      check and the two squares toward the rook are empty and not attacked,
      the queenside one exactly when the three squares toward the rook are
      empty and the two next to the king are not attacked. */
  lemma CastleMovesExact(b: Board, whiteToMove: bool, ep: Option<Square>, cr: CastleRights,
                         whiteKing: Square, blackKing: Square, r: int, c: int)
    requires NoPawnOnLastRank(b) && CastleSquaresOk(cr, whiteToMove, r, c)
    ensures forall m :: m in CastleMoves(b, whiteToMove, ep, cr, whiteKing, blackKing, r, c) ==>
              m.isCastleMove && !m.isEnpassantMove && m.StartSq() == Sq(r, c) && m.endRow == r
              && ((m.endCol == c + 2 && KingsideRight(cr, whiteToMove))
                  || (m.endCol == c - 2 && QueensideRight(cr, whiteToMove)))
    ensures KingsideRight(cr, whiteToMove) ==>
              (NewMove(Sq(r, c), Sq(r, c + 2), b, false, true) in CastleMoves(b, whiteToMove, ep, cr, whiteKing, blackKing, r, c)
               <==> !InCheck(b, whiteToMove, ep, whiteKing, blackKing)
                    && b[r][c + 1] == Empty && b[r][c + 2] == Empty
                    && !UnderAttack(b, whiteToMove, ep, r, c + 1) && !UnderAttack(b, whiteToMove, ep, r, c + 2))
    ensures QueensideRight(cr, whiteToMove) ==>
              (NewMove(Sq(r, c), Sq(r, c - 2), b, false, true) in CastleMoves(b, whiteToMove, ep, cr, whiteKing, blackKing, r, c)
               <==> !InCheck(b, whiteToMove, ep, whiteKing, blackKing)
                    && b[r][c - 1] == Empty && b[r][c - 2] == Empty && b[r][c - 3] == Empty
                    && !UnderAttack(b, whiteToMove, ep, r, c - 1) && !UnderAttack(b, whiteToMove, ep, r, c - 2))
  {
  }
}
