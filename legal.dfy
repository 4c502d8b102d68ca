/** The positions the engine's own play produces, and what they guarantee
    about the candidate moves `getValidMoves` starts from: pseudo-legal moves
    plus castle moves, each one undone exactly by `undoMove`, no two with
    the same identifier; and the valid moves those candidates leave. */
module Legal {
  import opened Wrappers
  import opened ChessBoard
  import opened Moves
  import opened Castling
  import opened MoveGen
  import opened MoveGenProps
  import opened MoveGenDistinct
  import opened Rules

  /** The king cache `cache` holds the king of `color`, and no other
      square does. */
  predicate KingCached(b: Board, color: Color, cache: Square) {
    OnBoard(cache) && b[cache.row][cache.col] == P(color, King)
    && forall i, j :: 0 <= i < 8 && 0 <= j < 8 && b[i][j] == P(color, King) ==> i == cache.row && j == cache.col
  }

  /** A castling right is held only while its king is on its home square. */
  predicate RightsAtHome(p: Position) {
    ((p.rights.wks || p.rights.wqs) ==> p.whiteKing == Sq(7, 4))
    && ((p.rights.bks || p.rights.bqs) ==> p.blackKing == Sq(0, 4))
  }

  /** The en-passant square, if any, is the empty square an enemy pawn just
      passed over, with that pawn on the square beyond it. */
  predicate EnpassantSound(p: Position) {
    p.enpassant.Some? ==>
      var e := p.enpassant.value;
      0 <= e.col < 8
      && (p.whiteToMove ==> e.row == 2 && p.board[3][e.col] == P(Black, Pawn))
      && (!p.whiteToMove ==> e.row == 5 && p.board[4][e.col] == P(White, Pawn))
      && p.board[e.row][e.col] == Empty
  }

  /** A well-formed position. */
  predicate Sound(p: Position) {
    NoPawnOnLastRank(p.board)
    && KingCached(p.board, White, p.whiteKing) && KingCached(p.board, Black, p.blackKing)
    && RightsAtHome(p) && EnpassantSound(p)
  }

  /** The position `GameState()` starts from. */
  function InitialPosition(): (p: Position)
    ensures Sound(p)
  {
    var b := InitialBoard();
    assert forall i, j :: InBoard(i, j) && b[i][j] == P(White, King) ==> i == 7 && j == 4;
    assert forall i, j :: InBoard(i, j) && b[i][j] == P(Black, King) ==> i == 0 && j == 4;
    Position(b, true, Sq(7, 4), Sq(0, 4), None, CastleRights(true, true, true, true))
  }

  /** The side to move is in check in p. */
  predicate PositionInCheck(p: Position)
    requires NoPawnOnLastRank(p.board)
  {
    InCheck(p.board, p.whiteToMove, p.enpassant, p.whiteKing, p.blackKing)
  }

  /** The castle moves of the side to move, from its king's cached square. */
  function PositionCastleMoves(p: Position): seq<Move>
    requires Sound(p)
  {
    var k := OwnKing(p);
    CastleMoves(p.board, p.whiteToMove, p.enpassant, p.rights, p.whiteKing, p.blackKing, k.row, k.col)
  }

  /** The moves `getValidMoves` tests: every pseudo-legal move, then the
      castle moves. */
  function Candidates(p: Position): seq<Move>
    requires Sound(p)
  {
    AllPossibleMoves(p.board, p.whiteToMove, p.enpassant) + PositionCastleMoves(p)
  }

  /** m moves a king only from that king's cached square. */
  predicate KingFromCache(p: Position, m: Move) {
    (m.pieceMoved == P(White, King) ==> m.StartSq() == p.whiteKing)
    && (m.pieceMoved == P(Black, King) ==> m.StartSq() == p.blackKing)
  }

  lemma CastleMovesReversible(p: Position)
    requires Sound(p)
    ensures forall m :: m in PositionCastleMoves(p) ==>
              Reversible(p.board, m) && KingFromCache(p, m) && m.StartSq() == OwnKing(p)
              && m.endRow == OwnKing(p).row
              && (m.endCol == OwnKing(p).col + 2 || m.endCol == OwnKing(p).col - 2)
  {
  }

  lemma PossibleMoveReversible(p: Position, m: Move)
    requires Sound(p) && PseudoLegal(p.board, p.whiteToMove, p.enpassant, m)
    ensures Reversible(p.board, m) && KingFromCache(p, m)
  {
    if m.isEnpassantMove {
      assert m.endRow == (if p.whiteToMove then 2 else 5);
    }
  }

  /** `undoMove` after `makeMove(m)`, reading back the en-passant square
      and the rights the logs held before the move, gives back the position
      m was generated in. */
  lemma PlayRoundTrip(p: Position, m: Move)
    requires Reversible(p.board, m) && KingFromCache(p, m)
    ensures Undone(Play(p, m), m, p.enpassant, p.rights) == p
  {
    BoardRoundTrip(p.board, m);
  }

  /** Every candidate is playable and is undone exactly, board and king
      cache, by `undoMove`. */
  lemma CandidatesReversible(p: Position)
    requires Sound(p)
    ensures forall m :: m in Candidates(p) ==> Reversible(p.board, m) && KingFromCache(p, m)
    ensures forall i :: 0 <= i < |Candidates(p)| ==> Playable(Candidates(p)[i])
  {
    AllPossibleMovesSound(p.board, p.whiteToMove, p.enpassant);
    CastleMovesReversible(p);
    forall m | m in Candidates(p)
      ensures Reversible(p.board, m) && KingFromCache(p, m)
    {
      if m in AllPossibleMoves(p.board, p.whiteToMove, p.enpassant) {
        PossibleMoveReversible(p, m);
      }
    }
    var cs := Candidates(p);
    assert forall i :: 0 <= i < |cs| ==> cs[i] in cs;
  }

  /** A king's own moves, as generated, go one column at most. */
  lemma KingStepsShort(b: Board, whiteToMove: bool, r: int, c: int)
    requires InBoard(r, c)
    ensures forall m :: m in KingMoves(b, whiteToMove, r, c) ==> c - 1 <= m.endCol <= c + 1
  {
    StepMovesFrom(b, whiteToMove, r, c, KingOffsets, 8);
    forall m | m in KingMoves(b, whiteToMove, r, c)
      ensures c - 1 <= m.endCol <= c + 1
    {
      var j :| 0 <= j < 8 && m.StartSq() == Sq(r, c) && m.EndSq() == Sq(r + KingOffsets[j].0, c + KingOffsets[j].1);
      assert -1 <= KingOffsets[j].1 <= 1;
    }
  }

  /** The castle moves of one king end on different squares. */
  lemma CastleMovesDistinct(p: Position)
    requires Sound(p)
    ensures DistinctSquares(PositionCastleMoves(p))
  {
    CastleMovesReversible(p);
  }

  /** A pseudo-legal move never has the squares of a castle move: from the
      king's square the king's own moves go one column at most. */
  lemma PossibleApartFromCastles(p: Position)
    requires Sound(p)
    ensures forall x, y :: x in AllPossibleMoves(p.board, p.whiteToMove, p.enpassant) && y in PositionCastleMoves(p)
              ==> x.StartSq() != y.StartSq() || x.EndSq() != y.EndSq()
  {
    var all := AllPossibleMoves(p.board, p.whiteToMove, p.enpassant);
    var castles := PositionCastleMoves(p);
    var k := OwnKing(p);
    RowsBeforeFrom(p.board, p.whiteToMove, p.enpassant, 8);
    CastleMovesReversible(p);
    KingStepsShort(p.board, p.whiteToMove, k.row, k.col);
    assert p.board[k.row][k.col] == P(SideColor(p.whiteToMove), King);
    assert SquareMoves(p.board, p.whiteToMove, p.enpassant, k.row, k.col) == KingMoves(p.board, p.whiteToMove, k.row, k.col);
    forall x, y | x in all && y in castles
      ensures x.StartSq() != y.StartSq() || x.EndSq() != y.EndSq()
    {
      if x.StartSq() == y.StartSq() {
        assert x in KingMoves(p.board, p.whiteToMove, k.row, k.col);
      }
    }
  }

  /** No two candidates have the same squares, so no two are equal under
      the identifier comparison. */
  lemma CandidatesDistinct(p: Position)
    requires Sound(p)
    ensures DistinctSquares(Candidates(p))
    ensures forall i, j :: 0 <= i < j < |Candidates(p)| ==> !MovesEqual(Candidates(p)[i], Candidates(p)[j])
  {
    var all := AllPossibleMoves(p.board, p.whiteToMove, p.enpassant);
    AllPossibleMovesDistinct(p.board, p.whiteToMove, p.enpassant);
    AllPossibleMovesSound(p.board, p.whiteToMove, p.enpassant);
    CastleMovesReversible(p);
    CastleMovesDistinct(p);
    PossibleApartFromCastles(p);
    DistinctSquaresAppend(all, PositionCastleMoves(p));
    var cs := Candidates(p);
    forall i, j | 0 <= i < j < |cs|
      ensures !MovesEqual(cs[i], cs[j])
    {
      assert cs[i] in cs && cs[j] in cs;
    }
  }

  /** Moves `getValidMoves` can test one by one in p: each is playable, is
      undone exactly by `undoMove`, and equals no other under the identifier
      comparison, so removing one by value removes that one. */
  predicate Testable(p: Position, cands: seq<Move>) {
    NoPawnOnLastRank(p.board) && NoEqualPair(cands)
    && forall i :: 0 <= i < |cands| ==> Playable(cands[i]) && Reversible(p.board, cands[i]) && KingFromCache(p, cands[i])
  }

  /** The candidates of a well-formed position can be tried one by one. */
  lemma CandidatesTestable(p: Position)
    requires Sound(p)
    ensures Testable(p, Candidates(p))
  {
    CandidatesReversible(p);
    CandidatesDistinct(p);
    var cs := Candidates(p);
    assert forall i :: 0 <= i < |cs| ==> cs[i] in cs;
  }

  /** The moves `getValidMoves` returns in a well-formed position: the
      candidates that do not leave the mover's king attacked, in candidate
      order. (Positions the engine cannot reach have none.) */
  function ValidMoves(p: Position): seq<Move>
  {
    if Sound(p) then
      CandidatesReversible(p);
      Sieve(p, Candidates(p))
    else []
  }

  /** A move is valid exactly when it is a candidate that keeps the mover's
      king safe. */
  lemma ValidMovesExact(p: Position)
    requires Sound(p)
    ensures forall m :: m in Candidates(p) ==> Playable(m)
    ensures forall m :: m in ValidMoves(p) <==> m in Candidates(p) && Safe(p, m)
  {
    CandidatesReversible(p);
    SieveExact(p, Candidates(p));
  }
}
