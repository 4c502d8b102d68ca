/** The positions of a game: well formed, and the side that has just moved
    did not leave its own king attacked. The starting position is one, and
    `makeMove` of a move `getValidMoves` returned leads from one to
    another, so `getValidMoves` may be asked again after every move. */
module PlayInvariant {
  import opened Wrappers
  import opened ChessBoard
  import opened Moves
  import opened Castling
  import opened MoveGen
  import opened MoveGenProps
  import opened MoveGenDistinct
  import opened Rules
  import opened Legal

  // ---------------------------------------------------------------------
  // The scan leaves no square out.

  lemma {:induction false} RowMovesHas(b: Board, whiteToMove: bool, ep: Option<Square>, r: int, c: nat, j: int, m: Move)
    requires 0 <= r < 8 && 0 <= j < c <= 8 && NoPawnOnLastRank(b)
    requires m in SquareMoves(b, whiteToMove, ep, r, j)
    ensures m in RowMoves(b, whiteToMove, ep, r, c)
  {
    var t := RowMoves(b, whiteToMove, ep, r, c - 1);
    var last := SquareMoves(b, whiteToMove, ep, r, c - 1);
    assert RowMoves(b, whiteToMove, ep, r, c) == t + last;
    if j < c - 1 {
      RowMovesHas(b, whiteToMove, ep, r, c - 1, j, m);
      assert m in t;
    } else {
      assert m in last;
    }
  }

  lemma {:induction false} RowsBeforeHas(b: Board, whiteToMove: bool, ep: Option<Square>, r: nat, i: int, m: Move)
    requires 0 <= i < r <= 8 && NoPawnOnLastRank(b)
    requires m in RowMoves(b, whiteToMove, ep, i, 8)
    ensures m in RowsBefore(b, whiteToMove, ep, r)
  {
    var t := RowsBefore(b, whiteToMove, ep, r - 1);
    var last := RowMoves(b, whiteToMove, ep, r - 1, 8);
    assert RowsBefore(b, whiteToMove, ep, r) == t + last;
    if i < r - 1 {
      RowsBeforeHas(b, whiteToMove, ep, r - 1, i, m);
      assert m in t;
    } else {
      assert m in last;
    }
  }

  /** `getAllPossibleMoves` lists the moves of every square's piece. */
  lemma ScanComplete(b: Board, whiteToMove: bool, ep: Option<Square>, r: int, c: int)
    requires InBoard(r, c) && NoPawnOnLastRank(b)
    ensures forall m :: m in SquareMoves(b, whiteToMove, ep, r, c) ==> m in AllPossibleMoves(b, whiteToMove, ep)
  {
    forall m | m in SquareMoves(b, whiteToMove, ep, r, c)
      ensures m in AllPossibleMoves(b, whiteToMove, ep)
    {
      RowMovesHas(b, whiteToMove, ep, r, 8, c, m);
      RowsBeforeHas(b, whiteToMove, ep, 8, r, m);
    }
  }

  lemma KingOffsetOf(dr: int, dc: int) returns (j: int)
    requires IsDirection(dr, dc)
    ensures 0 <= j < 8 && KingOffsets[j] == (dr, dc)
  {
    j := if dr == 0 then (if dc == 1 then 0 else 1)
         else if dc == 0 then (if dr == 1 then 2 else 3)
         else if dr == 1 then (if dc == 1 then 4 else 5)
         else (if dc == 1 then 6 else 7);
  }

  /** A king of `side` attacks every square next to it that is empty or
      holds a piece of the other side. */
  lemma KingAttacks(b: Board, side: bool, ep: Option<Square>, kr: int, kc: int, tr: int, tc: int)
    requires NoPawnOnLastRank(b) && InBoard(kr, kc) && InBoard(tr, tc)
    requires b[kr][kc] == P(SideColor(side), King) && IsDirection(tr - kr, tc - kc)
    requires b[tr][tc] == Empty || IsEnemy(b[tr][tc], side)
    ensures Targets(AllPossibleMoves(b, side, ep), tr, tc)
  {
    var j := KingOffsetOf(tr - kr, tc - kc);
    StepMovesComplete(b, side, kr, kc, KingOffsets, 8);
    var m := NewMove(Sq(kr, kc), Sq(tr, tc), b);
    assert m in KingMoves(b, side, kr, kc);
    assert SquareMoves(b, side, ep, kr, kc) == KingMoves(b, side, kr, kc);
    ScanComplete(b, side, ep, kr, kc);
    var all := AllPossibleMoves(b, side, ep);
    var i :| 0 <= i < |all| && all[i] == m;
  }

  /** A pseudo-legal move onto (r, c) attacks that square. */
  lemma MoveTargets(b: Board, whiteToMove: bool, ep: Option<Square>, m: Move)
    requires NoPawnOnLastRank(b) && m in AllPossibleMoves(b, whiteToMove, ep)
    ensures Targets(AllPossibleMoves(b, whiteToMove, ep), m.endRow, m.endCol)
  {
    var all := AllPossibleMoves(b, whiteToMove, ep);
    var i :| 0 <= i < |all| && all[i] == m;
  }

  // ---------------------------------------------------------------------
  // Two-row pawn moves.

  /** A push goes one row forward, or two from the starting row over an
      empty square, along the column. */
  lemma PawnPushesRows(b: Board, whiteToMove: bool, r: int, c: int)
    requires InBoard(r, c)
    requires whiteToMove ==> r >= 1
    requires !whiteToMove ==> r <= 6
    ensures forall m :: m in PawnPushes(b, whiteToMove, r, c) ==>
              !m.isEnpassantMove && m.endCol == c
              && (m.endRow == r + Forward(whiteToMove)
                  || (m.endRow == r + 2 * Forward(whiteToMove) && r == (if whiteToMove then 6 else 1)
                      && b[r + Forward(whiteToMove)][c] == Empty))
  {
  }

  /** A pawn moves one row forward, or makes the double push. */
  lemma PawnMovesRows(b: Board, whiteToMove: bool, ep: Option<Square>, r: int, c: int)
    requires InBoard(r, c)
    requires whiteToMove ==> r >= 1
    requires !whiteToMove ==> r <= 6
    ensures forall m :: m in PawnMoves(b, whiteToMove, ep, r, c) ==>
              m.endRow == r + Forward(whiteToMove)
              || (m.endRow == r + 2 * Forward(whiteToMove) && !m.isEnpassantMove && m.endCol == c
                  && r == (if whiteToMove then 6 else 1) && b[r + Forward(whiteToMove)][c] == Empty)
  {
    var fr := r + Forward(whiteToMove);
    var pushes := PawnPushes(b, whiteToMove, r, c);
    var left := if c - 1 >= 0 then PawnCapture(b, whiteToMove, ep, r, c, fr, c - 1) else [];
    var right := if c + 1 <= 7 then PawnCapture(b, whiteToMove, ep, r, c, fr, c + 1) else [];
    assert PawnMoves(b, whiteToMove, ep, r, c) == pushes + left + right;
    PawnPushesRows(b, whiteToMove, r, c);
    if c - 1 >= 0 { PawnCaptureEnd(b, whiteToMove, ep, r, c, fr, c - 1); }
    if c + 1 <= 7 { PawnCaptureEnd(b, whiteToMove, ep, r, c, fr, c + 1); }
    forall m: Move | m in pushes + left + right
      ensures m.endRow == fr
              || (m.endRow == r + 2 * Forward(whiteToMove) && !m.isEnpassantMove && m.endCol == c
                  && r == (if whiteToMove then 6 else 1) && b[fr][c] == Empty)
    {
      if m !in pushes {
        assert m in left || m in right;
      }
    }
  }

  /** A generated pawn move of two rows, which the en-passant target is
      set after, is a double push. */
  lemma DoubleStepShape(b: Board, whiteToMove: bool, ep: Option<Square>, m: Move)
    requires NoPawnOnLastRank(b) && m in AllPossibleMoves(b, whiteToMove, ep)
    requires m.pieceMoved.P? && m.pieceMoved.kind == Pawn
    requires m.endRow == m.startRow + 2 || m.endRow == m.startRow - 2
    ensures m.InBoardCoords() && m.pieceMoved == P(SideColor(whiteToMove), Pawn)
    ensures !m.isEnpassantMove && !m.isCastleMove && !m.isPawnPromotion
    ensures m.endCol == m.startCol && m.startRow == (if whiteToMove then 6 else 1)
    ensures m.endRow == (if whiteToMove then 4 else 3)
    ensures b[m.startRow + Forward(whiteToMove)][m.startCol] == Empty
  {
    RowsBeforeFrom(b, whiteToMove, ep, 8);
    AllPossibleMovesSound(b, whiteToMove, ep);
    var r, c := m.startRow, m.startCol;
    assert SquareMoves(b, whiteToMove, ep, r, c) == PawnMoves(b, whiteToMove, ep, r, c);
    PawnMovesRows(b, whiteToMove, ep, r, c);
  }

  // ---------------------------------------------------------------------
  // The board after a move, cell by cell.

  /** The square a castle's rook is copied from: next to the end square
      kingside, two columns beyond it otherwise. */
  function RookFrom(m: Move): Square {
    if m.endCol - m.startCol == 2 then Sq(m.endRow, m.endCol + 1) else Sq(m.endRow, m.endCol - 2)
  }

  /** The square a castle's rook is copied to, on the king's other side. */
  function RookTo(m: Move): Square {
    if m.endCol - m.startCol == 2 then Sq(m.endRow, m.endCol - 1) else Sq(m.endRow, m.endCol + 1)
  }

  /** (i, j) is one of the cells `makeMove(m)` assigns. */
  predicate Touched(m: Move, i: int, j: int) {
    Sq(i, j) == m.StartSq() || Sq(i, j) == m.EndSq()
    || (m.isEnpassantMove && Sq(i, j) == Sq(m.startRow, m.endCol))
    || (m.isCastleMove && (Sq(i, j) == RookFrom(m) || Sq(i, j) == RookTo(m)))
  }

  /** The piece that lands on the end square. */
  function Arriving(m: Move): Piece
    requires Playable(m)
  {
    if m.isPawnPromotion then P(m.pieceMoved.color, Queen) else m.pieceMoved
  }

  /** What each cell holds after `makeMove(m)`. */
  lemma CellsAfter(b: Board, m: Move)
    requires Reversible(b, m)
    ensures m.isCastleMove ==> OnBoard(RookFrom(m)) && OnBoard(RookTo(m))
    ensures forall i, j :: InBoard(i, j) && !Touched(m, i, j) ==> BoardAfter(b, m)[i][j] == b[i][j]
    ensures BoardAfter(b, m)[m.endRow][m.endCol] == Arriving(m)
    ensures BoardAfter(b, m)[m.startRow][m.startCol] == Empty
    ensures m.isEnpassantMove ==> BoardAfter(b, m)[m.startRow][m.endCol] == Empty
    ensures m.isCastleMove ==>
              BoardAfter(b, m)[RookTo(m).row][RookTo(m).col] == b[RookFrom(m).row][RookFrom(m).col]
              && BoardAfter(b, m)[RookFrom(m).row][RookFrom(m).col] == Empty
              && RookFrom(m) != m.StartSq() && RookFrom(m) != m.EndSq()
              && RookTo(m) != m.StartSq() && RookTo(m) != m.EndSq()
              && b[RookTo(m).row][RookTo(m).col] == Empty
  {
    var b1 := Set(Set(b, m.startRow, m.startCol, Empty), m.endRow, m.endCol, m.pieceMoved);
    var b3 := BoardAfterPieces(b, m);
    if m.isCastleMove {
      // A pawn never starts on its last rank, so a move along a row does
      // not promote.
      assert !m.isPawnPromotion;
      assert b3 == b1;
    }
  }

  // ---------------------------------------------------------------------
  // The king caches after a move.

  /** A king that neither moves nor is taken, nor copied nor removed by a
      special effect, stays cached where it was, and no other king of its
      colour appears. */
  lemma KingStaysCached(b: Board, m: Move, k: Color, cache: Square)
    requires Reversible(b, m) && KingCached(b, k, cache)
    requires m.pieceMoved != P(k, King) && b[m.endRow][m.endCol] != P(k, King)
    requires m.isEnpassantMove ==> b[m.startRow][m.endCol] != P(k, King)
    requires m.isCastleMove ==> OnBoard(RookFrom(m)) && b[RookFrom(m).row][RookFrom(m).col] != P(k, King)
    ensures KingCached(BoardAfter(b, m), k, cache)
  {
    CellsAfter(b, m);
    var a := BoardAfter(b, m);
    assert !Touched(m, cache.row, cache.col);
    forall i, j | 0 <= i < 8 && 0 <= j < 8 && a[i][j] == P(k, King)
      ensures i == cache.row && j == cache.col
    {
      if !Touched(m, i, j) {
        assert b[i][j] == P(k, King);
      }
    }
  }

  /** A moved king is cached on its end square, and no other king of its
      colour remains. */
  lemma KingMovedCached(b: Board, m: Move, k: Color, cache: Square)
    requires Reversible(b, m) && KingCached(b, k, cache) && m.pieceMoved == P(k, King)
    ensures KingCached(BoardAfter(b, m), k, m.EndSq())
  {
    CellsAfter(b, m);
    var a := BoardAfter(b, m);
    assert m.StartSq() == cache;
    forall i, j | 0 <= i < 8 && 0 <= j < 8 && a[i][j] == P(k, King)
      ensures i == m.endRow && j == m.endCol
    {
    }
  }

  /** Both caches after a move of the side of colour `own`, given what the
      candidates of a game position satisfy: the moved piece is the mover's,
      no king stands on the end square, en passant takes a pawn, and a
      castle moves the king and copies no enemy king. */
  lemma CachesAfter(b: Board, m: Move, own: Color, ownCache: Square, enemyCache: Square)
    requires Reversible(b, m) && KingCached(b, own, ownCache) && KingCached(b, Opponent(own), enemyCache)
    requires m.pieceMoved.P? && m.pieceMoved.color == own
    requires b[m.endRow][m.endCol] != P(own, King) && b[m.endRow][m.endCol] != P(Opponent(own), King)
    requires m.isEnpassantMove ==> b[m.startRow][m.endCol] == P(Opponent(own), Pawn)
    requires m.isCastleMove ==>
               m.pieceMoved == P(own, King) && OnBoard(RookFrom(m))
               && b[RookFrom(m).row][RookFrom(m).col] != P(Opponent(own), King)
    ensures KingCached(BoardAfter(b, m), own, CacheAfter(ownCache, P(own, King), m))
    ensures KingCached(BoardAfter(b, m), Opponent(own), CacheAfter(enemyCache, P(Opponent(own), King), m))
  {
    if m.pieceMoved == P(own, King) {
      KingMovedCached(b, m, own, ownCache);
    } else {
      KingStaysCached(b, m, own, ownCache);
    }
    KingStaysCached(b, m, Opponent(own), enemyCache);
  }

  // ---------------------------------------------------------------------
  // Game positions.

  /** A position of a game: well formed, and the side that has just moved
      (the side not to move) is not in check, as `getValidMoves` ensured
      when it let that move through. */
  predicate InPlay(p: Position) {
    Sound(p) && !InCheck(p.board, !p.whiteToMove, p.enpassant, p.whiteKing, p.blackKing)
  }

  /** What a move of the side of colour `own` must satisfy for both king
      caches to stay right: the moved piece is the mover's, no king stands
      on the end square, en passant takes a pawn, and a castle moves the
      king and copies no enemy king along with the rook. */
  predicate KeepsKings(b: Board, m: Move, own: Color) {
    Reversible(b, m) && m.pieceMoved.P? && m.pieceMoved.color == own
    && b[m.endRow][m.endCol] != P(own, King) && b[m.endRow][m.endCol] != P(Opponent(own), King)
    && (m.isEnpassantMove ==> b[m.startRow][m.endCol] == P(Opponent(own), Pawn))
    && (m.isCastleMove ==>
          m.pieceMoved == P(own, King) && OnBoard(RookFrom(m))
          && b[RookFrom(m).row][RookFrom(m).col] != P(Opponent(own), King))
  }

  /** A pseudo-legal move never takes a king: the mover's own is not on an
      empty or enemy square, and the enemy's is not attacked. */
  lemma PossibleKeepsKings(p: Position, m: Move)
    requires InPlay(p) && m in AllPossibleMoves(p.board, p.whiteToMove, p.enpassant)
    ensures KeepsKings(p.board, m, SideColor(p.whiteToMove))
  {
    AllPossibleMovesSound(p.board, p.whiteToMove, p.enpassant);
    PossibleMoveReversible(p, m);
    MoveTargets(p.board, p.whiteToMove, p.enpassant, m);
  }

  /** What a castle move finds on the board: the king of the side to move
      on its cached square, an empty end square, and kingside an end square
      that is not attacked. */
  lemma CastleConditions(p: Position, m: Move)
    requires Sound(p) && m in PositionCastleMoves(p)
    ensures m.isCastleMove && m.StartSq() == OwnKing(p)
    ensures m.pieceMoved == P(SideColor(p.whiteToMove), King)
    ensures p.board[m.endRow][m.endCol] == Empty
    ensures m.endCol - m.startCol == 2 ==> !UnderAttack(p.board, p.whiteToMove, p.enpassant, m.endRow, m.endCol)
  {
    var k := OwnKing(p);
    CastleMovesExact(p.board, p.whiteToMove, p.enpassant, p.rights, p.whiteKing, p.blackKing, k.row, k.col);
  }

  /** A castle move copies no enemy king: kingside, an enemy king on the
      rook square would attack the king's end square; queenside, it would
      stand next to the castled king, so the move would not be safe. */
  lemma CastleKeepsKings(p: Position, m: Move)
    requires InPlay(p) && m in PositionCastleMoves(p) && Playable(m) && Safe(p, m)
    ensures m.isCastleMove && KeepsKings(p.board, m, SideColor(p.whiteToMove))
  {
    var b, w := p.board, p.whiteToMove;
    var enemy := Opponent(SideColor(w));
    assert enemy == SideColor(!w);
    CastleMovesReversible(p);
    CastleConditions(p, m);
    CellsAfter(b, m);
    var rf := RookFrom(m);
    if b[rf.row][rf.col] == P(enemy, King) {
      if m.endCol - m.startCol == 2 {
        KingAttacks(b, !w, p.enpassant, rf.row, rf.col, m.endRow, m.endCol);
      } else {
        var a := BoardAfter(b, m);
        BoardAfterKeepsPawnRule(b, m);
        KingAttacks(a, !w, NextEnpassant(m), m.endRow, m.endCol + 1, m.endRow, m.endCol);
      }
    }
  }

  /** After a double push the en-passant target is sound: the pawn stands
      beyond the square it passed over, and that square is empty. */
  lemma PlayKeepsEnpassant(p: Position, m: Move)
    requires NoPawnOnLastRank(p.board) && Reversible(p.board, m)
    requires NextEnpassant(m).Some? ==> m in AllPossibleMoves(p.board, p.whiteToMove, p.enpassant)
    ensures EnpassantSound(Play(p, m))
  {
    if NextEnpassant(m).Some? {
      DoubleStepShape(p.board, p.whiteToMove, p.enpassant, m);
      CellsAfter(p.board, m);
      assert !Touched(m, m.startRow + Forward(p.whiteToMove), m.startCol);
    }
  }

  /** The king caches follow the kings. */
  lemma PlayKeepsCaches(p: Position, m: Move)
    requires Sound(p) && KeepsKings(p.board, m, SideColor(p.whiteToMove))
    ensures KingCached(Play(p, m).board, White, Play(p, m).whiteKing)
    ensures KingCached(Play(p, m).board, Black, Play(p, m).blackKing)
  {
    if p.whiteToMove {
      CachesAfter(p.board, m, White, p.whiteKing, p.blackKing);
    } else {
      CachesAfter(p.board, m, Black, p.blackKing, p.whiteKing);
    }
  }

  /** `makeMove` of a valid move of a game position gives a game position:
      the king caches follow the kings (no king is taken, since the enemy
      one is not attacked), rights are only lost, a double push leaves a
      sound en-passant target, and the mover's king is safe. */
  lemma PlayKeepsInPlay(p: Position, m: Move)
    requires InPlay(p) && m in ValidMoves(p)
    ensures Playable(m) && InPlay(Play(p, m))
  {
    ValidMovesExact(p);
    if m in AllPossibleMoves(p.board, p.whiteToMove, p.enpassant) {
      PossibleKeepsKings(p, m);
    } else {
      CastleKeepsKings(p, m);
    }
    BoardAfterKeepsPawnRule(p.board, m);
    PlayKeepsCaches(p, m);
    PlayKeepsEnpassant(p, m);
  }

  /** `PlayKeepsInPlay` for the position q that `makeMove` produced. */
  lemma PlayedInPlay(p: Position, m: Move, q: Position)
    requires Playable(m) && q == Play(p, m)
    ensures InPlay(p) && m in ValidMoves(p) ==> InPlay(q)
  {
    if InPlay(p) && m in ValidMoves(p) {
      PlayKeepsInPlay(p, m);
    }
  }

  /** Rights that have only lost flags keep a game position one: after an
      `undoMove` that reads back a log entry `getValidMoves` has cleared,
      the engine is still in a game position. */
  lemma DecayedRightsKeepInPlay(p: Position, r: CastleRights)
    requires InPlay(p) && NoneGained(r, p.rights)
    ensures InPlay(p.(rights := r))
  {
  }

  // ---------------------------------------------------------------------
  // The starting position.

  /** A piece whose neighbours are all its own has no ray move. */
  lemma {:induction false} RaysBlocked(b: Board, whiteToMove: bool, r: int, c: int, dirs: seq<(int, int)>, k: nat)
    requires InBoard(r, c) && k <= |dirs| && AllDirections(dirs)
    requires forall i, j :: InBoard(i, j) && r - 1 <= i <= r + 1 && c - 1 <= j <= c + 1 ==> IsOwn(b[i][j], whiteToMove)
    ensures RaysMoves(b, whiteToMove, r, c, dirs, k) == []
  {
    if k > 0 {
      RaysBlocked(b, whiteToMove, r, c, dirs, k - 1);
      var dr, dc := dirs[k - 1].0, dirs[k - 1].1;
      assert RayMoves(b, whiteToMove, r, c, dr, dc, r, c) == [];
    }
  }

  /** White's pieces stand on rows 6 and 7, pawns in front. */
  predicate WhiteAtHome(b: Board) {
    (forall j :: 0 <= j < 8 ==> b[6][j] == P(White, Pawn))
    && (forall j :: 0 <= j < 8 ==> b[7][j].P? && b[7][j].color == White && b[7][j].kind != Pawn)
    && (forall i, j :: 0 <= i <= 5 && 0 <= j < 8 ==> !IsOwn(b[i][j], true))
  }

  lemma InitialWhite()
    ensures WhiteAtHome(InitialBoard())
  {
  }

  /** A knight or king step from row r changes the row by two at most. */
  lemma StepRows(b: Board, r: int, c: int, offsets: seq<(int, int)>)
    requires InBoard(r, c) && |offsets| == 8
    requires forall j :: 0 <= j < 8 ==> offsets[j].0 >= -2
    ensures forall m :: m in StepMoves(b, true, r, c, offsets, 8) ==> m.endRow >= r - 2
  {
    StepMovesFrom(b, true, r, c, offsets, 8);
  }

  /** With White at home no White move reaches beyond row 4: its pawns
      step at most two rows, its knights and king at most two and one, and
      the rest are hemmed in by their own pieces. */
  lemma HomeSquareMoves(b: Board, r: int, c: int)
    requires InBoard(r, c) && NoPawnOnLastRank(b) && WhiteAtHome(b)
    ensures forall m :: m in SquareMoves(b, true, None, r, c) ==> m.endRow >= 4
  {
    if 6 <= r && b[r][c].P? {
      var moves := SquareMoves(b, true, None, r, c);
      match b[r][c].kind
      case Pawn =>
        assert moves == PawnMoves(b, true, None, r, c);
        PawnMovesRows(b, true, None, r, c);
      case Knight =>
        assert moves == KnightMoves(b, true, r, c);
        StepRows(b, r, c, KnightOffsets);
      case King =>
        assert moves == KingMoves(b, true, r, c);
        StepRows(b, r, c, KingOffsets);
      case Rook =>
        assert moves == RookMoves(b, true, r, c);
        RaysBlocked(b, true, r, c, RookDirections, 4);
      case Bishop =>
        assert moves == BishopMoves(b, true, r, c);
        RaysBlocked(b, true, r, c, BishopDirections, 4);
      case Queen =>
        assert moves == QueenMoves(b, true, r, c);
        RaysBlocked(b, true, r, c, RookDirections, 4);
        RaysBlocked(b, true, r, c, BishopDirections, 4);
    }
  }

  /** The position `GameState()` starts from is a game position: Black's
      king is not attacked there. */
  lemma InitialInPlay()
    ensures InPlay(InitialPosition())
  {
    var p := InitialPosition();
    var all := AllPossibleMoves(p.board, true, None);
    InitialWhite();
    RowsBeforeFrom(p.board, true, None, 8);
    forall i | 0 <= i < |all|
      ensures all[i].endRow >= 4
    {
      HomeSquareMoves(p.board, all[i].startRow, all[i].startCol);
    }
  }
}
