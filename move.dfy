/** One ply: its two squares, the pieces it moves and takes, and the flags for
    the three special moves; equality by a derived identifier; and rank/file
    notation from the engine's lookup tables. */
module Moves {
  import opened Wrappers
  import opened ChessBoard

  datatype Move = Move(
    startRow: int, startCol: int, endRow: int, endCol: int,
    pieceMoved: Piece, pieceCaptured: Piece,
    isPawnPromotion: bool, isEnpassantMove: bool, isCastleMove: bool)
  {
    /** The identifier the engine compares moves by. */
    function MoveID(): int {
      startRow * 1000 + startCol * 100 + endRow * 10 + endCol
    }

    function StartSq(): Square {
      Sq(startRow, startCol)
    }

    function EndSq(): Square {
      Sq(endRow, endCol)
    }

    predicate InBoardCoords() {
      InBoard(startRow, startCol) && InBoard(endRow, endCol)
    }
  }

  /** The pawn an en-passant capture takes: the opposite colour of the mover,
      reading a black pawn as the capturer and anything else as white. */
  function EnpassantVictim(pieceMoved: Piece): Piece {
    if pieceMoved == P(Black, Pawn) then P(White, Pawn) else P(Black, Pawn)
  }

  /** A pawn of either colour arriving on the last rank of its own colour. */
  predicate Promotes(pieceMoved: Piece, endRow: int) {
    (pieceMoved == P(White, Pawn) && endRow == 0) || (pieceMoved == P(Black, Pawn) && endRow == 7)
  }

  /** The `Move(startSq, endSq, board, isEnpassantMove, isCastleMove)`
      constructor: the moved and captured pieces are read off the board; an
      en-passant capture instead records the pawn it removes; promotion is
      derived from the moved piece and the arrival row. */
  function NewMove(startSq: Square, endSq: Square, board: Board,
                   isEnpassantMove: bool := false, isCastleMove: bool := false): (m: Move)
    requires OnBoard(startSq) && OnBoard(endSq)
    ensures m.StartSq() == startSq && m.EndSq() == endSq && m.InBoardCoords()
    ensures m.pieceMoved == board[startSq.row][startSq.col]
    ensures !isEnpassantMove ==> m.pieceCaptured == board[endSq.row][endSq.col]
    ensures isEnpassantMove ==> m.pieceCaptured.P? && m.pieceCaptured.kind == Pawn
                                && (m.pieceMoved.P? && m.pieceMoved.kind == Pawn
                                    ==> m.pieceCaptured.color != m.pieceMoved.color)
    ensures m.isPawnPromotion <==> Promotes(m.pieceMoved, endSq.row)
    ensures m.isEnpassantMove == isEnpassantMove && m.isCastleMove == isCastleMove
  {
    var moved := board[startSq.row][startSq.col];
    Move(startSq.row, startSq.col, endSq.row, endSq.col,
         moved,
         if isEnpassantMove then EnpassantVictim(moved) else board[endSq.row][endSq.col],
         Promotes(moved, endSq.row),
         isEnpassantMove, isCastleMove)
  }

  /** `Move.__eq__`: two moves are equal when their identifiers are. On
      board coordinates that is the same as having the same four
      coordinates: the identifier is a base-ten numeral of them. */
  function MovesEqual(a: Move, b: Move): (r: bool)
    ensures a.InBoardCoords() && b.InBoardCoords() ==>
              (r <==> a.StartSq() == b.StartSq() && a.EndSq() == b.EndSq())
  {
    a.MoveID() == b.MoveID()
  }

  // Rank/file lookup tables. The engine builds the reverse tables by
  // inverting the forward ones; here they are written out and
  // `RankTablesInverse` and `FileTablesInverse` prove they are those inverses.

  const RanksToRows: map<char, int> :=
    map['1' := 7, '2' := 6, '3' := 5, '4' := 4, '5' := 3, '6' := 2, '7' := 1, '8' := 0]

  const RowsToRanks: map<int, char> :=
    map[7 := '1', 6 := '2', 5 := '3', 4 := '4', 3 := '5', 2 := '6', 1 := '7', 0 := '8']

  const FilesToCols: map<char, int> :=
    map['a' := 0, 'b' := 1, 'c' := 2, 'd' := 3, 'e' := 4, 'f' := 5, 'g' := 6, 'h' := 7]

  const ColsToFiles: map<int, char> :=
    map[0 := 'a', 1 := 'b', 2 := 'c', 3 := 'd', 4 := 'e', 5 := 'f', 6 := 'g', 7 := 'h']

  /** The rank tables are inverse to each other: `RowsToRanks` is
      `{v: k for k, v in RanksToRows.items()}`, and its keys are exactly the
      rows 0..7. */
  lemma RankTablesInverse()
    ensures forall k :: k in RanksToRows ==> RanksToRows[k] in RowsToRanks && RowsToRanks[RanksToRows[k]] == k
    ensures forall v :: v in RowsToRanks <==> 0 <= v < 8
    ensures forall v :: 0 <= v < 8 ==> RowsToRanks[v] in RanksToRows && RanksToRows[RowsToRanks[v]] == v
  {
    forall k | k in RanksToRows
      ensures RanksToRows[k] in RowsToRanks && RowsToRanks[RanksToRows[k]] == k
    {
      assert k in {'1', '2', '3', '4', '5', '6', '7', '8'};
    }
  }

  /** The file tables are inverse to each other, and the columns 0..7 are
      exactly the keys of `ColsToFiles`. */
  lemma FileTablesInverse()
    ensures forall k :: k in FilesToCols ==> FilesToCols[k] in ColsToFiles && ColsToFiles[FilesToCols[k]] == k
    ensures forall v :: v in ColsToFiles <==> 0 <= v < 8
    ensures forall v :: 0 <= v < 8 ==> ColsToFiles[v] in FilesToCols && FilesToCols[ColsToFiles[v]] == v
  {
    forall k | k in FilesToCols
      ensures FilesToCols[k] in ColsToFiles && ColsToFiles[FilesToCols[k]] == k
    {
      assert k in {'a', 'b', 'c', 'd', 'e', 'f', 'g', 'h'};
    }
  }

  /** Reads a two-letter square name with the forward tables. */
  function SquareOfRankFile(s: string): Option<Square> {
    if |s| == 2 && s[0] in FilesToCols && s[1] in RanksToRows
    then Some(Sq(RanksToRows[s[1]], FilesToCols[s[0]]))
    else None
  }

  /** `getRankFile(r, c)`: file letter then rank digit. */
  function GetRankFile(r: int, c: int): (s: string)
    requires InBoard(r, c)
    ensures SquareOfRankFile(s) == Some(Sq(r, c))
  {
    RankTablesInverse();
    FileTablesInverse();
    [ColsToFiles[c], RowsToRanks[r]]
  }

  /** `getChessNotation()`: the start square's name followed by the end
      square's, e.g. "e2e4"; both squares can be read back from it. */
  function GetChessNotation(m: Move): (s: string)
    requires m.InBoardCoords()
    ensures |s| == 4
    ensures SquareOfRankFile(s[..2]) == Some(m.StartSq())
    ensures SquareOfRankFile(s[2..]) == Some(m.EndSq())
  {
    var a := GetRankFile(m.startRow, m.startCol);
    var b := GetRankFile(m.endRow, m.endCol);
    assert |a| == 2 && |b| == 2;
    assert (a + b)[..2] == a && (a + b)[2..] == b;
    a + b
  }
}
