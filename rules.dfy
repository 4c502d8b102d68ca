/** What `makeMove` and `undoMove` do to the board, the king cache and the
    en-passant square, stated on values; when undoing a move restores the
    board; and the check test and filter `getValidMoves` applies to the
    candidate moves. */
module Rules {
  import opened Wrappers
  import opened ChessBoard
  import opened Moves
  import opened Castling
  import opened MoveGen

  /** What every move the `Move` constructor builds from a board without a
      pawn on its last rank satisfies, and what `makeMove`/`undoMove` need of
      a move to stay inside the grid. A castle move touches the squares next
      to its end square: `endCol + 1` always, and `endCol - 1` (kingside) or
      `endCol - 2` (any other castle). */
  predicate Playable(m: Move) {
    m.InBoardCoords()
    && (m.isPawnPromotion <==> Promotes(m.pieceMoved, m.endRow))
    && PawnRowOk(m.pieceMoved, m.startRow) && PawnRowOk(m.pieceCaptured, m.endRow)
    && (m.isEnpassantMove ==> PawnRowOk(m.pieceCaptured, m.startRow))
    && (m.isCastleMove ==> m.endCol + 1 <= 7 && (m.endCol - m.startCol == 2 || m.endCol >= 2))
  }

  /** The board after `makeMove(m)`: the cell assignments in the order the
      engine makes them. The moved piece lands on the end square and becomes
      a queen of its colour on promotion; an en-passant capture empties the
      square beside the start; a castle move copies whatever stands on the
      rook square next to the king and empties the rook square. */
  function BoardAfter(b: Board, m: Move): Board
    requires Playable(m)
  {
    RookAfter(BoardAfterPieces(b, m), m)
  }

  /** The part of `BoardAfter` before the rook of a castle moves. */
  function BoardAfterPieces(b: Board, m: Move): Board
    requires Playable(m)
  {
    PromotedAndPassed(Set(Set(b, m.startRow, m.startCol, Empty), m.endRow, m.endCol, m.pieceMoved), m)
  }

  /** The promotion of the arrived pawn and the removal of a pawn taken en
      passant. */
  function PromotedAndPassed(b1: Board, m: Move): Board
    requires Playable(m)
  {
    var b2 := if m.isPawnPromotion then Set(b1, m.endRow, m.endCol, P(m.pieceMoved.color, Queen)) else b1;
    if m.isEnpassantMove then Set(b2, m.startRow, m.endCol, Empty) else b2
  }

  /** The rook move of a castle: kingside when the king went two columns
      right, queenside otherwise. */
  function RookAfter(b3: Board, m: Move): Board
    requires Playable(m)
  {
    if !m.isCastleMove then b3
    else if m.endCol - m.startCol == 2 then
      Set(Set(b3, m.endRow, m.endCol - 1, b3[m.endRow][m.endCol + 1]), m.endRow, m.endCol + 1, Empty)
    else
      Set(Set(b3, m.endRow, m.endCol + 1, b3[m.endRow][m.endCol - 2]), m.endRow, m.endCol - 2, Empty)
  }

  /** The promotion and the en-passant removal leave no pawn on its last
      rank, even though the pawn itself has just arrived there. */
  lemma PromotedAndPassedKeepsPawnRule(b0: Board, m: Move)
    requires Playable(m) && NoPawnOnLastRank(b0)
    ensures NoPawnOnLastRank(PromotedAndPassed(Set(b0, m.endRow, m.endCol, m.pieceMoved), m))
  {
    var b1 := Set(b0, m.endRow, m.endCol, m.pieceMoved);
    var b2 := if m.isPawnPromotion then Set(b1, m.endRow, m.endCol, P(m.pieceMoved.color, Queen)) else b1;
    if m.isPawnPromotion {
      forall j | 0 <= j < 8
        ensures b2[0][j] != P(White, Pawn) && b2[7][j] != P(Black, Pawn)
      {
        assert b0[0][j] != P(White, Pawn) && b0[7][j] != P(Black, Pawn);
      }
    } else {
      SetKeepsNoPawnOnLastRank(b0, m.endRow, m.endCol, m.pieceMoved);
    }
    if m.isEnpassantMove {
      SetKeepsNoPawnOnLastRank(b2, m.startRow, m.endCol, Empty);
    }
  }

  /** The rook of a castle stays on its row, so it cannot break the rule. */
  lemma RookAfterKeepsPawnRule(b3: Board, m: Move)
    requires Playable(m) && NoPawnOnLastRank(b3)
    ensures NoPawnOnLastRank(RookAfter(b3, m))
  {
    if m.isCastleMove {
      if m.endCol - m.startCol == 2 {
        SetKeepsNoPawnOnLastRank(b3, m.endRow, m.endCol - 1, b3[m.endRow][m.endCol + 1]);
        var b4 := Set(b3, m.endRow, m.endCol - 1, b3[m.endRow][m.endCol + 1]);
        SetKeepsNoPawnOnLastRank(b4, m.endRow, m.endCol + 1, Empty);
      } else {
        SetKeepsNoPawnOnLastRank(b3, m.endRow, m.endCol + 1, b3[m.endRow][m.endCol - 2]);
        var b4 := Set(b3, m.endRow, m.endCol + 1, b3[m.endRow][m.endCol - 2]);
        SetKeepsNoPawnOnLastRank(b4, m.endRow, m.endCol - 2, Empty);
      }
    }
  }

  /** `makeMove` never leaves a pawn on its last rank: a pawn arriving there
      is the promotion the move records, and the castling rook stays on its
      row. */
  lemma BoardAfterKeepsPawnRule(b: Board, m: Move)
    requires Playable(m) && NoPawnOnLastRank(b)
    ensures NoPawnOnLastRank(BoardAfter(b, m))
  {
    SetKeepsNoPawnOnLastRank(b, m.startRow, m.startCol, Empty);
    PromotedAndPassedKeepsPawnRule(Set(b, m.startRow, m.startCol, Empty), m);
    RookAfterKeepsPawnRule(BoardAfterPieces(b, m), m);
  }

  /** The board after `undoMove()` takes back m: the moved piece returns to
      the start square and the captured piece to the end square; for an
      en-passant capture the end square is emptied and the captured pawn
      goes back beside the start; a castle move copies the piece next to the
      king back to the rook square and empties the square it stood on. */
  function BoardUndone(b: Board, m: Move): Board
    requires Playable(m)
  {
    RookUndone(BoardUndonePieces(b, m), m)
  }

  /** The part of `BoardUndone` before the rook of a castle moves back. */
  function BoardUndonePieces(b: Board, m: Move): Board
    requires Playable(m)
  {
    PassedRestored(Set(Set(b, m.startRow, m.startCol, m.pieceMoved), m.endRow, m.endCol, m.pieceCaptured), m)
  }

  /** Taking back an en-passant capture: the end square is emptied and the
      taken pawn returns beside the start. */
  function PassedRestored(b1: Board, m: Move): Board
    requires Playable(m)
  {
    if m.isEnpassantMove then Set(Set(b1, m.endRow, m.endCol, Empty), m.startRow, m.endCol, m.pieceCaptured)
    else b1
  }

  /** Taking back the rook move of a castle. */
  function RookUndone(b2: Board, m: Move): Board
    requires Playable(m)
  {
    if !m.isCastleMove then b2
    else if m.endCol - m.startCol == 2 then
      Set(Set(b2, m.endRow, m.endCol + 1, b2[m.endRow][m.endCol - 1]), m.endRow, m.endCol - 1, Empty)
    else
      Set(Set(b2, m.endRow, m.endCol - 2, b2[m.endRow][m.endCol + 1]), m.endRow, m.endCol + 1, Empty)
  }

  /** Putting the pieces back keeps the rule: each goes to the row it was
      generated on. */
  lemma PiecesUndoneKeepPawnRule(b: Board, m: Move)
    requires Playable(m) && NoPawnOnLastRank(b)
    ensures NoPawnOnLastRank(BoardUndonePieces(b, m))
  {
    var b0 := Set(b, m.startRow, m.startCol, m.pieceMoved);
    SetKeepsNoPawnOnLastRank(b, m.startRow, m.startCol, m.pieceMoved);
    SetKeepsNoPawnOnLastRank(b0, m.endRow, m.endCol, m.pieceCaptured);
    var b1 := Set(b0, m.endRow, m.endCol, m.pieceCaptured);
    if m.isEnpassantMove {
      SetKeepsNoPawnOnLastRank(b1, m.endRow, m.endCol, Empty);
      SetKeepsNoPawnOnLastRank(Set(b1, m.endRow, m.endCol, Empty), m.startRow, m.endCol, m.pieceCaptured);
    }
  }

  /** The rook going back along its row keeps the rule. */
  lemma RookUndoneKeepsPawnRule(b2: Board, m: Move)
    requires Playable(m) && NoPawnOnLastRank(b2)
    ensures NoPawnOnLastRank(RookUndone(b2, m))
  {
    if m.isCastleMove {
      if m.endCol - m.startCol == 2 {
        SetKeepsNoPawnOnLastRank(b2, m.endRow, m.endCol + 1, b2[m.endRow][m.endCol - 1]);
        var b3 := Set(b2, m.endRow, m.endCol + 1, b2[m.endRow][m.endCol - 1]);
        SetKeepsNoPawnOnLastRank(b3, m.endRow, m.endCol - 1, Empty);
      } else {
        SetKeepsNoPawnOnLastRank(b2, m.endRow, m.endCol - 2, b2[m.endRow][m.endCol + 1]);
        var b3 := Set(b2, m.endRow, m.endCol - 2, b2[m.endRow][m.endCol + 1]);
        SetKeepsNoPawnOnLastRank(b3, m.endRow, m.endCol + 1, Empty);
      }
    }
  }

  /** `undoMove` never puts a pawn on its last rank either. */
  lemma BoardUndoneKeepsPawnRule(b: Board, m: Move)
    requires Playable(m) && NoPawnOnLastRank(b)
    ensures NoPawnOnLastRank(BoardUndone(b, m))
  {
    PiecesUndoneKeepPawnRule(b, m);
    RookUndoneKeepsPawnRule(BoardUndonePieces(b, m), m);
  }

  /** The en-passant square after m: the square a pawn passed over when it
      advanced two rows, and none after any other move. */
  function NextEnpassant(m: Move): (r: Option<Square>)
    ensures r.Some? <==> m.pieceMoved.P? && m.pieceMoved.kind == Pawn
                         && (m.startRow - m.endRow == 2 || m.endRow - m.startRow == 2)
    ensures r.Some? ==> r.value.col == m.startCol
                        && (r.value.row == m.startRow + 1 || r.value.row == m.startRow - 1)
                        && (r.value.row == m.endRow + 1 || r.value.row == m.endRow - 1)
  {
    // The engine writes `(startRow + endRow) // 2`, a floor division; for a
    // positive divisor Dafny's `/` is that same division.
    if m.pieceMoved.P? && m.pieceMoved.kind == Pawn && (m.startRow - m.endRow == 2 || m.endRow - m.startRow == 2)
    then Some(Sq((m.startRow + m.endRow) / 2, m.startCol))
    else None
  }

  /** The king cache after `makeMove(m)`: it follows the king when that king
      is the moved piece. */
  function CacheAfter(cache: Square, king: Piece, m: Move): Square {
    if m.pieceMoved == king then m.EndSq() else cache
  }

  /** The king cache after `undoMove()` takes back m. */
  function CacheUndone(cache: Square, king: Piece, m: Move): Square {
    if m.pieceMoved == king then m.StartSq() else cache
  }

  /** The move was generated on board b: the pieces it records are the ones
      on its squares, the squares its special effects touch are distinct
      from each other, and those effects find what they expect: an empty
      end square and the captured pawn beside the start for en passant, an
      empty square between king and end square for castling. */
  predicate Reversible(b: Board, m: Move) {
    Playable(m) && m.StartSq() != m.EndSq()
    && m.pieceMoved == b[m.startRow][m.startCol]
    && (!m.isEnpassantMove ==> m.pieceCaptured == b[m.endRow][m.endCol])
    && (m.isEnpassantMove ==>
          m.startRow != m.endRow && m.startCol != m.endCol
          && b[m.endRow][m.endCol] == Empty && b[m.startRow][m.endCol] == m.pieceCaptured)
    && (m.isCastleMove ==>
          m.startRow == m.endRow && !m.isEnpassantMove
          && ((m.endCol - m.startCol == 2 && b[m.endRow][m.endCol - 1] == Empty)
              || (m.startCol - m.endCol == 2 && b[m.endRow][m.endCol + 1] == Empty)))
  }

  /** `undoMove` after `makeMove(m)` gives back the board m was generated
      on, promotion, en passant and castling included. */
  lemma BoardRoundTrip(b: Board, m: Move)
    requires Reversible(b, m)
    ensures BoardUndone(BoardAfter(b, m), m) == b
  {
    var a := BoardAfter(b, m);
    var u := BoardUndone(a, m);
    forall i | 0 <= i < 8
      ensures u[i] == b[i]
    {
      forall j | 0 <= j < 8
        ensures u[i][j] == b[i][j]
      {
        CellRoundTrip(b, m, i, j);
      }
    }
  }

  lemma CellRoundTrip(b: Board, m: Move, i: int, j: int)
    requires Reversible(b, m) && InBoard(i, j)
    ensures BoardUndone(BoardAfter(b, m), m)[i][j] == b[i][j]
  {
    if m.isCastleMove {
      CastleCellRoundTrip(b, m, i, j);
    } else if m.isEnpassantMove {
    } else {
    }
  }

  lemma CastleCellRoundTrip(b: Board, m: Move, i: int, j: int)
    requires Reversible(b, m) && InBoard(i, j) && m.isCastleMove
    ensures BoardUndone(BoardAfter(b, m), m)[i][j] == b[i][j]
  {
    var r, sc, ec := m.startRow, m.startCol, m.endCol;
    assert !m.isPawnPromotion;
    var b3 := BoardAfterPieces(b, m);
    assert b3 == Set(Set(b, r, sc, Empty), r, ec, m.pieceMoved);
    var a := BoardAfter(b, m);
    var c2 := BoardUndonePieces(a, m);
    assert c2 == Set(Set(a, r, sc, m.pieceMoved), r, ec, m.pieceCaptured);
  }

  // ---------------------------------------------------------------------
  // Positions.

  /** The part of the engine's state the move rules read: the board, the
      side to move, the two king caches, the en-passant square and the
      current castling rights. */
  datatype Position = Position(board: Board, whiteToMove: bool,
                               whiteKing: Square, blackKing: Square,
                               enpassant: Option<Square>, rights: CastleRights)

  /** The position after `makeMove(m)`. */
  function Play(p: Position, m: Move): Position
    requires Playable(m)
  {
    Position(BoardAfter(p.board, m), !p.whiteToMove,
             CacheAfter(p.whiteKing, P(White, King), m), CacheAfter(p.blackKing, P(Black, King), m),
             NextEnpassant(m), UpdatedRights(p.rights, m))
  }

  /** The position after `undoMove()` takes back m from q, with the
      en-passant square and castling rights it reads back from its logs. */
  function Undone(q: Position, m: Move, ep: Option<Square>, rights: CastleRights): Position
    requires Playable(m)
  {
    Position(BoardUndone(q.board, m), !q.whiteToMove,
             CacheUndone(q.whiteKing, P(White, King), m), CacheUndone(q.blackKing, P(Black, King), m),
             ep, rights)
  }

  /** The king cache of the side to move. */
  function OwnKing(p: Position): Square {
    if p.whiteToMove then p.whiteKing else p.blackKing
  }

  /** m does not leave the mover's own king attacked: the check
      `getValidMoves` makes after `makeMove(m)`, with the turn handed back to
      the mover. */
  predicate Safe(p: Position, m: Move)
    requires NoPawnOnLastRank(p.board) && Playable(m)
  {
    BoardAfterKeepsPawnRule(p.board, m);
    var q := Play(p, m);
    !InCheck(q.board, p.whiteToMove, q.enpassant, q.whiteKing, q.blackKing)
  }

  /** The check test does not look at the castling rights. */
  lemma SafeIgnoresRights(p: Position, m: Move, rights: CastleRights)
    requires NoPawnOnLastRank(p.board) && Playable(m)
    ensures Safe(p.(rights := rights), m) == Safe(p, m)
  {
  }

  /** The verdict of the check test for each candidate, in order. */
  function Verdicts(p: Position, cands: seq<Move>): (v: seq<bool>)
    requires NoPawnOnLastRank(p.board)
    requires forall i :: 0 <= i < |cands| ==> Playable(cands[i])
    ensures |v| == |cands|
    ensures forall i :: 0 <= i < |cands| ==> v[i] == Safe(p, cands[i])
  {
    seq(|cands|, i requires 0 <= i < |cands| => Safe(p, cands[i]))
  }

  /** The elements of s whose verdict is true, in their order. */
  function Filter(s: seq<Move>, keep: seq<bool>): seq<Move>
    requires |s| == |keep|
    decreases |s|
  {
    if s == [] then []
    else (if keep[0] then [s[0]] else []) + Filter(s[1..], keep[1..])
  }

  /** The candidates that are safe in p, in their order. */
  function Sieve(p: Position, cands: seq<Move>): seq<Move>
    requires NoPawnOnLastRank(p.board)
    requires forall i :: 0 <= i < |cands| ==> Playable(cands[i])
  {
    Filter(cands, Verdicts(p, cands))
  }

  /** The backward loop's invariant at index 0 is the sieve itself. */
  lemma SieveWhole(p: Position, cands: seq<Move>, keep: seq<bool>, moves: seq<Move>)
    requires NoPawnOnLastRank(p.board) && forall i :: 0 <= i < |cands| ==> Playable(cands[i])
    requires keep == Verdicts(p, cands) && moves == cands[..0] + Filter(cands[0..], keep[0..])
    ensures moves == Sieve(p, cands)
  {
    assert cands[..0] == [] && cands[0..] == cands && keep[0..] == keep;
  }

  /** The filter keeps exactly the elements whose verdict is true. */
  lemma {:induction false} FilterExact(s: seq<Move>, keep: seq<bool>)
    requires |s| == |keep|
    ensures forall m :: m in Filter(s, keep) ==> exists i :: 0 <= i < |s| && s[i] == m && keep[i]
    ensures forall i :: 0 <= i < |s| && keep[i] ==> s[i] in Filter(s, keep)
    decreases |s|
  {
    if s != [] {
      FilterExact(s[1..], keep[1..]);
      forall m | m in Filter(s, keep)
        ensures exists i :: 0 <= i < |s| && s[i] == m && keep[i]
      {
        if !(keep[0] && m == s[0]) {
          assert m in Filter(s[1..], keep[1..]);
          var i :| 0 <= i < |s[1..]| && s[1..][i] == m && keep[1..][i];
          assert s[i + 1] == m && keep[i + 1];
        }
      }
      forall i | 0 <= i < |s| && keep[i]
        ensures s[i] in Filter(s, keep)
      {
        if i > 0 { assert s[i] == s[1..][i - 1] && keep[i] == keep[1..][i - 1]; }
      }
    }
  }

  /** The sieve keeps exactly the safe candidates. */
  lemma SieveExact(p: Position, cands: seq<Move>)
    requires NoPawnOnLastRank(p.board)
    requires forall i :: 0 <= i < |cands| ==> Playable(cands[i])
    ensures forall m :: m in Sieve(p, cands) ==> m in cands && Safe(p, m)
    ensures forall m :: m in cands && Safe(p, m) ==> m in Sieve(p, cands)
  {
    var v := Verdicts(p, cands);
    FilterExact(cands, v);
    forall m | m in cands && Safe(p, m)
      ensures m in Sieve(p, cands)
    {
      var i :| 0 <= i < |cands| && cands[i] == m;
      assert v[i];
    }
  }

  /** Filtering from position i is keeping or dropping `s[i]`, then
      filtering from i + 1. */
  lemma FilterSplit(s: seq<Move>, keep: seq<bool>, i: int)
    requires |s| == |keep| && 0 <= i < |s|
    ensures keep[i] ==> Filter(s[i..], keep[i..]) == [s[i]] + Filter(s[i + 1..], keep[i + 1..])
    ensures !keep[i] ==> Filter(s[i..], keep[i..]) == Filter(s[i + 1..], keep[i + 1..])
  {
    assert s[i..][1..] == s[i + 1..] && keep[i..][1..] == keep[i + 1..];
    assert [] + Filter(s[i + 1..], keep[i + 1..]) == Filter(s[i + 1..], keep[i + 1..]);
  }

  // ---------------------------------------------------------------------
  // `moves.remove(moves[i])`: Python's list removal, which drops the first
  // element equal to its argument, and `Move` equality is by identifier.

  function RemoveFirst(s: seq<Move>, x: Move): (r: seq<Move>)
    requires exists j :: 0 <= j < |s| && MovesEqual(s[j], x)
    ensures |r| == |s| - 1
  {
    if MovesEqual(s[0], x) then s[1..]
    else
      assert exists j :: 0 <= j < |s[1..]| && MovesEqual(s[1..][j], x) by {
        var j :| 0 <= j < |s| && MovesEqual(s[j], x);
        assert MovesEqual(s[1..][j - 1], x);
      }
      [s[0]] + RemoveFirst(s[1..], x)
  }

  /** When no earlier element has the identifier of `s[i]`, removing
      `s[i]` by value removes exactly position i. */
  lemma {:induction false} RemoveFirstAt(s: seq<Move>, i: int)
    requires 0 <= i < |s|
    requires forall j :: 0 <= j < i ==> !MovesEqual(s[j], s[i])
    ensures RemoveFirst(s, s[i]) == s[..i] + s[i + 1..]
  {
    if i > 0 {
      assert s[1..][i - 1] == s[i];
      RemoveFirstAt(s[1..], i - 1);
      assert s[1..][..i - 1] + s[1..][i..] == s[1..i] + s[i + 1..];
      assert [s[0]] + (s[1..i] + s[i + 1..]) == s[..i] + s[i + 1..];
    }
  }

  /** No two elements are equal as `Move.__eq__` compares them. */
  predicate NoEqualPair(s: seq<Move>) {
    forall j, k :: 0 <= j < k < |s| ==> !MovesEqual(s[j], s[k])
  }

  /** One step of the backward loop of `getValidMoves`, which walks the
      candidates from the last to the first: with positions i + 1 and up
      already filtered, keeping `cands[i]`, or removing it by value, filters
      from position i, provided no two candidates are equal. */
  lemma FilterStep(cands: seq<Move>, keep: seq<bool>, i: int, moves: seq<Move>)
    requires |cands| == |keep| && NoEqualPair(cands) && 0 <= i < |cands|
    requires moves == cands[..i + 1] + Filter(cands[i + 1..], keep[i + 1..])
    ensures i < |moves| && moves[i] == cands[i]
    ensures exists j :: 0 <= j < |moves| && MovesEqual(moves[j], moves[i])
    ensures !keep[i] ==> RemoveFirst(moves, moves[i]) == cands[..i] + Filter(cands[i..], keep[i..])
    ensures keep[i] ==> moves == cands[..i] + Filter(cands[i..], keep[i..])
  {
    var rest := Filter(cands[i + 1..], keep[i + 1..]);
    FilterSplit(cands, keep, i);
    assert moves[i] == cands[i];
    assert MovesEqual(moves[i], moves[i]);
    if keep[i] {
      assert cands[..i + 1] == cands[..i] + [cands[i]];
    } else {
      forall j | 0 <= j < i
        ensures !MovesEqual(moves[j], moves[i])
      {
        assert moves[j] == cands[j];
      }
      RemoveFirstAt(moves, i);
      assert moves[..i] == cands[..i];
      assert moves[i + 1..] == rest;
    }
  }
}
