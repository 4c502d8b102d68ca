/** The `GameState` object of the chess engine: the board and side to move,
    the move log and the en-passant and castling-rights logs that run beside
    it, the cached king squares, and the mate flags; its move generators,
    which append to a move list, and the make/undo pair that `getValidMoves`
    drives to filter out moves which leave the mover in check.

    The castling rights are a mutable object in the engine, and the current
    rights object is sometimes also an entry of the rights log: `undoMove`
    makes the restored log entry itself the current object, so the next
    `UpdateCastleRights` clears flags in that log entry too. The field
    `rightsAlias` records which log entry, if any, is the current object. */
module Engine {
  import opened Wrappers
  import opened ChessBoard
  import opened Moves
  import opened Castling
  import opened MoveGen
  import opened MoveGenProps
  import opened Rules
  import opened Legal
  import PlayInvariant

  /** The rights log after the flags of the current rights object are
      rewritten to v: the entry at `alias`, when it is that object, becomes v. */
  function WriteThrough(log: seq<CastleRights>, alias: Option<nat>, v: CastleRights): (r: seq<CastleRights>)
    ensures |r| == |log|
    ensures forall k :: 0 <= k < |log| ==> r[k] == (if alias == Some(k) then v else log[k])
  {
    if alias.Some? && alias.value < |log| then log[alias.value := v] else log
  }

  /** The current rights object `cur`, when it is the log entry `alias`,
      is equal to it. */
  predicate AliasOk(alias: Option<nat>, log: seq<CastleRights>, cur: CastleRights) {
    alias.Some? ==> alias.value < |log| && log[alias.value] == cur
  }

  /** The rights log `log`, of the same length as `log0`, differs from it
      only at positions n and `alias0`, and none of its entries holds a
      right the entry of `log0` did not. */
  predicate RightsDecayed(log: seq<CastleRights>, log0: seq<CastleRights>, n: nat, alias0: Option<nat>) {
    |log| == |log0|
    && (forall j :: 0 <= j < |log| && j != n && alias0 != Some(j) ==> log[j] == log0[j])
    && (forall j :: 0 <= j < |log| ==> NoneGained(log[j], log0[j]))
  }

  /** Clearing rights through an alias at n or at `alias0` keeps the log
      decayed in that sense. */
  lemma WriteThroughDecays(log: seq<CastleRights>, log0: seq<CastleRights>, n: nat, alias0: Option<nat>,
                           alias: Option<nat>, cur: CastleRights, m: Move)
    requires RightsDecayed(log, log0, n, alias0) && AliasOk(alias, log, cur)
    requires alias == alias0 || alias == Some(n)
    ensures RightsDecayed(WriteThrough(log, alias, UpdatedRights(cur, m)), log0, n, alias0)
  {
    var w := WriteThrough(log, alias, UpdatedRights(cur, m));
    forall j | 0 <= j < |w|
      ensures NoneGained(w[j], log0[j])
    {
      if alias == Some(j) {
        assert NoneGained(w[j], log[j]) && NoneGained(log[j], log0[j]);
      }
    }
  }

  /** As written, a round of the `getValidMoves` loop can clear rights in
      the log: once an earlier round's `undoMove` has made log entry 1 the
      current rights object, trying the castle e1-g1 (`TryCandidate` writes
      `UpdatedRights` through the alias) leaves entry 1 without any White
      right, though the position it records still has them. */
  lemma AliasedKingStepClearsLoggedRights()
    ensures var log := [CastleRights(true, true, true, true), CastleRights(true, true, true, true)];
            var m := Move(7, 4, 7, 6, P(White, King), Empty, false, false, true);
            WriteThrough(log, Some(1), UpdatedRights(log[1], m))[1] == CastleRights(false, true, false, true)
  {
  }

  predicate AllPlayable(log: seq<Move>) {
    forall i :: 0 <= i < |log| ==> Playable(log[i])
  }

  lemma AllPlayableAppend(log: seq<Move>, m: Move)
    requires AllPlayable(log) && Playable(m)
    ensures AllPlayable(log + [m])
  {
    assert forall i :: 0 <= i < |log| ==> (log + [m])[i] == log[i];
  }

  lemma AllPlayablePrefix(log: seq<Move>, n: int)
    requires AllPlayable(log) && 0 <= n <= |log|
    ensures AllPlayable(log[..n])
  {
    assert forall i :: 0 <= i < n ==> log[..n][i] == log[i];
  }

  class GameState {
    var board: Board
    var whiteToMove: bool
    var moveLog: seq<Move>
    var whiteKingLocation: Square
    var blackKingLocation: Square
    var checkMate: bool
    var staleMate: bool
    var enpassantPossible: Option<Square>
    var enpassantPossibleLog: seq<Option<Square>>
    var currentCastlingRight: CastleRights
    var castleRightsLog: seq<CastleRights>
    /** The index of the rights-log entry that is the current rights object,
        if one is. */
    var rightsAlias: Option<nat>

    /** The logs hold one entry per move plus the starting one, the
        en-passant square is the last logged one, and the board and logged
        moves are the kind the move rules produce. */
    ghost predicate Valid()
      reads this`enpassantPossibleLog, this`moveLog, this`castleRightsLog, this`enpassantPossible
      reads this`rightsAlias, this`currentCastlingRight, this`board
    {
      |enpassantPossibleLog| == |moveLog| + 1 && |castleRightsLog| == |moveLog| + 1
      && enpassantPossible == enpassantPossibleLog[|moveLog|]
      && AliasOk(rightsAlias, castleRightsLog, currentCastlingRight) && NoPawnOnLastRank(board) && AllPlayable(moveLog)
    }

    /** The part of the state the move rules read. */
    function Pos(): Position
      reads this`board, this`whiteToMove, this`whiteKingLocation, this`blackKingLocation
      reads this`enpassantPossible, this`currentCastlingRight
    {
      Position(board, whiteToMove, whiteKingLocation, blackKingLocation, enpassantPossible, currentCastlingRight)
    }

    constructor()
      ensures Valid() && Pos() == InitialPosition()
      ensures moveLog == [] && !checkMate && !staleMate
      ensures enpassantPossibleLog == [None]
      ensures castleRightsLog == [CastleRights(true, true, true, true)] && rightsAlias == None
    {
      board := InitialBoard();
      whiteToMove := true;
      moveLog := [];
      whiteKingLocation := Sq(7, 4);
      blackKingLocation := Sq(0, 4);
      checkMate := false;
      staleMate := false;
      enpassantPossible := None;
      enpassantPossibleLog := [None];
      var cr := CastleRights(true, true, true, true);
      currentCastlingRight := cr;
      // The log's copy is built with the queenside and Black kingside flags
      // in swapped argument positions; all four are true here.
      castleRightsLog := [CastleRights(cr.wks, cr.wqs, cr.bks, cr.bqs)];
      rightsAlias := None;
    }

    /** Clears the rights the move forfeits, in the current rights object and
        so in the log entry that object is. */
    method UpdateCastleRights(move: Move)
      requires AliasOk(rightsAlias, castleRightsLog, currentCastlingRight)
      modifies this`currentCastlingRight, this`castleRightsLog
      ensures AliasOk(rightsAlias, castleRightsLog, currentCastlingRight)
      ensures currentCastlingRight == UpdatedRights(old(currentCastlingRight), move)
      ensures castleRightsLog == WriteThrough(old(castleRightsLog), rightsAlias, currentCastlingRight)
    {
      var cr := currentCastlingRight;
      if move.pieceMoved == P(White, King) {
        cr := cr.(wks := false);
        cr := cr.(wqs := false);
      } else if move.pieceMoved == P(Black, King) {
        cr := cr.(bks := false);
        cr := cr.(bqs := false);
      } else if move.pieceMoved == P(White, Rook) {
        if move.startRow == 7 {
          if move.startCol == 0 {
            cr := cr.(wqs := false);
          } else if move.startCol == 7 {
            cr := cr.(wks := false);
          }
        }
      } else if move.pieceMoved == P(Black, Rook) {
        if move.startRow == 0 {
          if move.startCol == 0 {
            cr := cr.(bqs := false);
          } else if move.startCol == 7 {
            cr := cr.(bks := false);
          }
        }
      }
      currentCastlingRight := cr;
      castleRightsLog := WriteThrough(castleRightsLog, rightsAlias, cr);
    }

    /** Plays the move: the board and side to move, the king caches and the
        en-passant square change as `Play` says, and each log gains an
        entry. A move `getValidMoves` returned leads from a game position
        to another. */
    method MakeMove(move: Move)
      requires Valid() && Playable(move)
      modifies this`board, this`whiteToMove, this`moveLog, this`whiteKingLocation, this`blackKingLocation
      modifies this`enpassantPossible, this`enpassantPossibleLog, this`currentCastlingRight, this`castleRightsLog
      ensures Valid()
      ensures Pos() == Play(old(Pos()), move)
      ensures moveLog == old(moveLog) + [move]
      ensures enpassantPossibleLog == old(enpassantPossibleLog) + [NextEnpassant(move)]
      ensures castleRightsLog == WriteThrough(old(castleRightsLog), rightsAlias, currentCastlingRight)
                                 + [currentCastlingRight]
      ensures old(PlayInvariant.InPlay(Pos())) && move in ValidMoves(old(Pos())) ==> PlayInvariant.InPlay(Pos())
    {
      ghost var p := Pos();
      BoardAfterKeepsPawnRule(board, move);
      MovePieces(move);
      UpdateCastleRights(move);
      var cr := currentCastlingRight;
      castleRightsLog := castleRightsLog + [CastleRights(cr.wks, cr.bks, cr.wqs, cr.bqs)];
      enpassantPossibleLog := enpassantPossibleLog + [enpassantPossible];
      AllPlayableAppend(old(moveLog), move);
      PlayInvariant.PlayedInPlay(p, move, Pos());
    }

    /** Everything `makeMove` does before the castling rights: the pieces,
        the move log, the turn, the king caches and the en-passant square. */
    method MovePieces(move: Move)
      requires Playable(move)
      modifies this`board, this`whiteToMove, this`moveLog, this`whiteKingLocation, this`blackKingLocation
      modifies this`enpassantPossible
      ensures board == BoardAfter(old(board), move)
      ensures moveLog == old(moveLog) + [move]
      ensures whiteToMove == !old(whiteToMove)
      ensures whiteKingLocation == CacheAfter(old(whiteKingLocation), P(White, King), move)
      ensures blackKingLocation == CacheAfter(old(blackKingLocation), P(Black, King), move)
      ensures enpassantPossible == NextEnpassant(move)
    {
      board := Set(board, move.startRow, move.startCol, Empty);
      board := Set(board, move.endRow, move.endCol, move.pieceMoved);
      moveLog := moveLog + [move];
      whiteToMove := !whiteToMove;
      FollowKing(move);
      PromoteAndTakePassed(move);
      UpdateEnpassantPossible(move);
      MoveCastleRook(move);
    }

    /** The king cache follows a king that moves. */
    method FollowKing(move: Move)
      modifies this`whiteKingLocation, this`blackKingLocation
      ensures whiteKingLocation == CacheAfter(old(whiteKingLocation), P(White, King), move)
      ensures blackKingLocation == CacheAfter(old(blackKingLocation), P(Black, King), move)
    {
      if move.pieceMoved == P(White, King) {
        whiteKingLocation := Sq(move.endRow, move.endCol);
      }
      if move.pieceMoved == P(Black, King) {
        blackKingLocation := Sq(move.endRow, move.endCol);
      }
    }

    /** A promoting pawn becomes a queen; an en-passant capture empties the
        square the taken pawn stood on. */
    method PromoteAndTakePassed(move: Move)
      requires Playable(move)
      modifies this`board
      ensures board == PromotedAndPassed(old(board), move)
    {
      if move.isPawnPromotion {
        board := Set(board, move.endRow, move.endCol, P(move.pieceMoved.color, Queen));
      }
      if move.isEnpassantMove {
        board := Set(board, move.startRow, move.endCol, Empty);
      }
    }

    /** The square a pawn passes over on a double step, else none. */
    method UpdateEnpassantPossible(move: Move)
      modifies this`enpassantPossible
      ensures enpassantPossible == NextEnpassant(move)
    {
      if move.pieceMoved.P? && move.pieceMoved.kind == Pawn
         && (move.startRow - move.endRow == 2 || move.endRow - move.startRow == 2) {
        enpassantPossible := Some(Sq((move.startRow + move.endRow) / 2, move.startCol));
      } else {
        enpassantPossible := None;
      }
    }

    /** The rook of a castle jumps over the king. */
    method MoveCastleRook(move: Move)
      requires Playable(move)
      modifies this`board
      ensures board == RookAfter(old(board), move)
    {
      if move.isCastleMove {
        if move.endCol - move.startCol == 2 {
          board := Set(board, move.endRow, move.endCol - 1, board[move.endRow][move.endCol + 1]);
          board := Set(board, move.endRow, move.endCol + 1, Empty);
        } else {
          board := Set(board, move.endRow, move.endCol + 1, board[move.endRow][move.endCol - 2]);
          board := Set(board, move.endRow, move.endCol - 2, Empty);
        }
      }
    }

    /** Takes back the last move, if there is one: the board and caches as
        `Undone` says, the en-passant square and the rights read back from
        the logs, and the restored rights entry becomes the current rights
        object. With an empty log nothing changes. */
    method UndoMove()
      requires Valid()
      modifies this`board, this`whiteToMove, this`moveLog, this`whiteKingLocation, this`blackKingLocation
      modifies this`enpassantPossible, this`enpassantPossibleLog, this`currentCastlingRight, this`castleRightsLog
      modifies this`rightsAlias
      ensures Valid()
      ensures old(|moveLog|) == 0 ==> unchanged(this)
      ensures old(|moveLog|) > 0 ==>
                var n := old(|moveLog|);
                Pos() == Undone(old(Pos()), old(moveLog[n - 1]),
                                old(enpassantPossibleLog[n - 1]), old(castleRightsLog[n - 1]))
                && moveLog == old(moveLog[..n - 1])
                && enpassantPossibleLog == old(enpassantPossibleLog[..n])
                && castleRightsLog == old(castleRightsLog[..n])
                && rightsAlias == Some(n - 1)
    {
      if |moveLog| != 0 {
        var move := moveLog[|moveLog| - 1];
        AllPlayablePrefix(moveLog, |moveLog| - 1);
        moveLog := moveLog[..|moveLog| - 1];
        BoardUndoneKeepsPawnRule(board, move);
        ReturnPieces(move);
        PopLogs();
        ReturnCastleRook(move);
      }
    }

    /** The en-passant and rights logs drop their last entries; the
        en-passant square is read back from its log, and the rights log's
        new last entry becomes the current rights object itself. */
    method PopLogs()
      requires |enpassantPossibleLog| >= 2 && |castleRightsLog| >= 2
      modifies this`enpassantPossibleLog, this`enpassantPossible
      modifies this`castleRightsLog, this`currentCastlingRight, this`rightsAlias
      ensures enpassantPossibleLog == old(enpassantPossibleLog[..|enpassantPossibleLog| - 1])
      ensures enpassantPossible == enpassantPossibleLog[|enpassantPossibleLog| - 1]
      ensures castleRightsLog == old(castleRightsLog[..|castleRightsLog| - 1])
      ensures currentCastlingRight == castleRightsLog[|castleRightsLog| - 1]
      ensures rightsAlias == Some(|castleRightsLog| - 1)
    {
      enpassantPossibleLog := enpassantPossibleLog[..|enpassantPossibleLog| - 1];
      enpassantPossible := enpassantPossibleLog[|enpassantPossibleLog| - 1];
      castleRightsLog := castleRightsLog[..|castleRightsLog| - 1];
      currentCastlingRight := castleRightsLog[|castleRightsLog| - 1];
      rightsAlias := Some(|castleRightsLog| - 1);
    }

    /** The pieces, the turn and the king caches go back, and a pawn taken
        en passant returns. */
    method ReturnPieces(move: Move)
      requires Playable(move)
      modifies this`board, this`whiteToMove, this`whiteKingLocation, this`blackKingLocation
      ensures board == BoardUndonePieces(old(board), move)
      ensures whiteToMove == !old(whiteToMove)
      ensures whiteKingLocation == CacheUndone(old(whiteKingLocation), P(White, King), move)
      ensures blackKingLocation == CacheUndone(old(blackKingLocation), P(Black, King), move)
    {
      board := Set(board, move.startRow, move.startCol, move.pieceMoved);
      board := Set(board, move.endRow, move.endCol, move.pieceCaptured);
      whiteToMove := !whiteToMove;
      ReturnKing(move);
      RestorePassed(move);
    }

    /** The king cache goes back with a king whose move is taken back. */
    method ReturnKing(move: Move)
      modifies this`whiteKingLocation, this`blackKingLocation
      ensures whiteKingLocation == CacheUndone(old(whiteKingLocation), P(White, King), move)
      ensures blackKingLocation == CacheUndone(old(blackKingLocation), P(Black, King), move)
    {
      if move.pieceMoved == P(White, King) {
        whiteKingLocation := Sq(move.startRow, move.startCol);
      }
      if move.pieceMoved == P(Black, King) {
        blackKingLocation := Sq(move.startRow, move.startCol);
      }
    }

    /** Taking back an en-passant capture puts the taken pawn back. */
    method RestorePassed(move: Move)
      requires Playable(move)
      modifies this`board
      ensures board == PassedRestored(old(board), move)
    {
      if move.isEnpassantMove {
        board := Set(board, move.endRow, move.endCol, Empty);
        board := Set(board, move.startRow, move.endCol, move.pieceCaptured);
      }
    }

    /** Taking back a castle puts the rook back in its corner. */
    method ReturnCastleRook(move: Move)
      requires Playable(move)
      modifies this`board
      ensures board == RookUndone(old(board), move)
    {
      if move.isCastleMove {
        if move.endCol - move.startCol == 2 {
          board := Set(board, move.endRow, move.endCol + 1, board[move.endRow][move.endCol - 1]);
          board := Set(board, move.endRow, move.endCol - 1, Empty);
        } else {
          board := Set(board, move.endRow, move.endCol - 2, board[move.endRow][move.endCol + 1]);
          board := Set(board, move.endRow, move.endCol + 1, Empty);
        }
      }
    }

    // -------------------------------------------------------------------
    // Move generators: each appends its moves to the list it is given.

    /** The pawn on (r, c): its forward moves, then its captures toward
        columns c - 1 and c + 1 on the row ahead. */
    method GetPawnMoves(r: int, c: int, moves: seq<Move>) returns (out: seq<Move>)
      requires InBoard(r, c)
      requires whiteToMove ==> r >= 1
      requires !whiteToMove ==> r <= 6
      ensures out == moves + PawnMoves(board, whiteToMove, enpassantPossible, r, c)
    {
      var fr := if whiteToMove then r - 1 else r + 1;
      ghost var pushes := PawnPushes(board, whiteToMove, r, c);
      ghost var toLeft := if c - 1 >= 0 then PawnCapture(board, whiteToMove, enpassantPossible, r, c, fr, c - 1) else [];
      ghost var toRight := if c + 1 <= 7 then PawnCapture(board, whiteToMove, enpassantPossible, r, c, fr, c + 1) else [];
      assert PawnMoves(board, whiteToMove, enpassantPossible, r, c) == pushes + toLeft + toRight;
      out := GetPawnPushes(r, c, moves);
      if c - 1 >= 0 {
        out := GetPawnCapture(r, c, fr, c - 1, out);
      }
      assert out == moves + pushes + toLeft;
      if c + 1 <= 7 {
        out := GetPawnCapture(r, c, fr, c + 1, out);
      }
      AppendThree(moves, pushes, toLeft, toRight);
    }

    /** One step forward onto an empty square, and a second from the
        starting row. Only the black side checks that the step stays on the
        board. */
    method GetPawnPushes(r: int, c: int, moves: seq<Move>) returns (out: seq<Move>)
      requires InBoard(r, c)
      requires whiteToMove ==> r >= 1
      requires !whiteToMove ==> r <= 6
      ensures out == moves + PawnPushes(board, whiteToMove, r, c)
    {
      out := moves;
      if whiteToMove {
        if board[r - 1][c] == Empty {
          out := out + [NewMove(Sq(r, c), Sq(r - 1, c), board)];
          if r == 6 && board[r - 2][c] == Empty {
            out := out + [NewMove(Sq(r, c), Sq(r - 2, c), board)];
          }
        }
      } else {
        if r + 1 <= 7 && board[r + 1][c] == Empty {
          out := out + [NewMove(Sq(r, c), Sq(r + 1, c), board)];
          if r == 1 && board[r + 2][c] == Empty {
            out := out + [NewMove(Sq(r, c), Sq(r + 2, c), board)];
          }
        }
      }
    }

    /** A diagonal capture onto (tr, tc): of an enemy piece there, or en
        passant when (tr, tc) is the en-passant square. */
    method GetPawnCapture(r: int, c: int, tr: int, tc: int, moves: seq<Move>) returns (out: seq<Move>)
      requires InBoard(r, c) && InBoard(tr, tc)
      ensures out == moves + PawnCapture(board, whiteToMove, enpassantPossible, r, c, tr, tc)
    {
      out := moves;
      if IsEnemy(board[tr][tc], whiteToMove) {
        out := out + [NewMove(Sq(r, c), Sq(tr, tc), board)];
      } else if enpassantPossible == Some(Sq(tr, tc)) {
        out := out + [NewMove(Sq(r, c), Sq(tr, tc), board, isEnpassantMove := true)];
      }
    }

    /** The sliding loop shared by the rook and the bishop: the rays of
        the directions in table order. */
    method GetRayMoves(r: int, c: int, dirs: seq<(int, int)>, moves: seq<Move>) returns (out: seq<Move>)
      requires InBoard(r, c) && AllDirections(dirs)
      ensures out == moves + RaysMoves(board, whiteToMove, r, c, dirs, |dirs|)
    {
      out := moves;
      for i := 0 to |dirs|
        invariant out == moves + RaysMoves(board, whiteToMove, r, c, dirs, i)
      {
        ghost var done := RaysMoves(board, whiteToMove, r, c, dirs, i);
        ghost var ray := RayMoves(board, whiteToMove, r, c, dirs[i].0, dirs[i].1, r, c);
        assert RaysMoves(board, whiteToMove, r, c, dirs, i + 1) == done + ray;
        out := GetRay(r, c, dirs[i].0, dirs[i].1, out);
        AppendTwo(moves, done, ray);
      }
    }

    /** One direction (dr, dc): step while on the board, adding a move onto
        each empty square and the first enemy square, and stop at the first
        piece. */
    method GetRay(r: int, c: int, dr: int, dc: int, moves: seq<Move>) returns (out: seq<Move>)
      requires InBoard(r, c) && IsDirection(dr, dc)
      ensures out == moves + RayMoves(board, whiteToMove, r, c, dr, dc, r, c)
    {
      out := moves;
      var nr, nc := r, c;
      while 0 <= nr + dr && nr + dr < 8 && 0 <= nc + dc && nc + dc < 8
        invariant InBoard(nr, nc)
        invariant out + RayMoves(board, whiteToMove, r, c, dr, dc, nr, nc)
                  == moves + RayMoves(board, whiteToMove, r, c, dr, dc, r, c)
        decreases RayMeasure(dr, dc, nr, nc)
      {
        ghost var pr, pc := nr, nc;
        nr, nc := nr + dr, nc + dc;
        if board[nr][nc] == Empty {
          ghost var step := [NewMove(Sq(r, c), Sq(nr, nc), board)];
          assert RayMoves(board, whiteToMove, r, c, dr, dc, pr, pc)
                 == step + RayMoves(board, whiteToMove, r, c, dr, dc, nr, nc);
          AppendTwo(out, step, RayMoves(board, whiteToMove, r, c, dr, dc, nr, nc));
          out := out + [NewMove(Sq(r, c), Sq(nr, nc), board)];
        } else if IsEnemy(board[nr][nc], whiteToMove) {
          out := out + [NewMove(Sq(r, c), Sq(nr, nc), board)];
          assert RayMoves(board, whiteToMove, r, c, dr, dc, pr, pc) == [NewMove(Sq(r, c), Sq(nr, nc), board)];
          return;
        } else {
          assert RayMoves(board, whiteToMove, r, c, dr, dc, pr, pc) == [];
          return;
        }
      }
    }

    method GetRookMoves(r: int, c: int, moves: seq<Move>) returns (out: seq<Move>)
      requires InBoard(r, c)
      ensures out == moves + RookMoves(board, whiteToMove, r, c)
    {
      out := GetRayMoves(r, c, RookDirections, moves);
    }

    method GetBishopMoves(r: int, c: int, moves: seq<Move>) returns (out: seq<Move>)
      requires InBoard(r, c)
      ensures out == moves + BishopMoves(board, whiteToMove, r, c)
    {
      out := GetRayMoves(r, c, BishopDirections, moves);
    }

    /** The bishop moves, then the rook moves. */
    method GetQueenMoves(r: int, c: int, moves: seq<Move>) returns (out: seq<Move>)
      requires InBoard(r, c)
      ensures out == moves + QueenMoves(board, whiteToMove, r, c)
    {
      out := GetBishopMoves(r, c, moves);
      out := GetRookMoves(r, c, out);
    }

    /** The single-step loop shared by the knight and the king: each offset
        that lands on the board on an empty or enemy square is a move. */
    method GetStepMoves(r: int, c: int, offsets: seq<(int, int)>, moves: seq<Move>) returns (out: seq<Move>)
      requires InBoard(r, c)
      ensures out == moves + StepMoves(board, whiteToMove, r, c, offsets, |offsets|)
    {
      out := moves;
      for i := 0 to |offsets|
        invariant out == moves + StepMoves(board, whiteToMove, r, c, offsets, i)
      {
        var dr, dc := offsets[i].0, offsets[i].1;
        assert StepMoves(board, whiteToMove, r, c, offsets, i + 1)
            == StepMoves(board, whiteToMove, r, c, offsets, i) + StepMove(board, whiteToMove, r, c, dr, dc);
        AppendTwo(moves, StepMoves(board, whiteToMove, r, c, offsets, i), StepMove(board, whiteToMove, r, c, dr, dc));
        if 0 <= r + dr < 8 && 0 <= c + dc < 8 {
          var nr, nc := r + dr, c + dc;
          if board[nr][nc] == Empty {
            out := out + [NewMove(Sq(r, c), Sq(nr, nc), board)];
          } else if IsEnemy(board[nr][nc], whiteToMove) {
            out := out + [NewMove(Sq(r, c), Sq(nr, nc), board)];
          }
        }
      }
    }

    method GetKnightMoves(r: int, c: int, moves: seq<Move>) returns (out: seq<Move>)
      requires InBoard(r, c)
      ensures out == moves + KnightMoves(board, whiteToMove, r, c)
    {
      out := GetStepMoves(r, c, KnightOffsets, moves);
    }

    method GetKingMoves(r: int, c: int, moves: seq<Move>) returns (out: seq<Move>)
      requires InBoard(r, c)
      ensures out == moves + KingMoves(board, whiteToMove, r, c)
    {
      out := GetStepMoves(r, c, KingOffsets, moves);
    }

    /** Every pseudo-legal move of the side to move, castling aside: the
        squares in row-major order. */
    method GetAllPossibleMoves() returns (moves: seq<Move>)
      requires NoPawnOnLastRank(board)
      ensures moves == AllPossibleMoves(board, whiteToMove, enpassantPossible)
    {
      moves := [];
      for r := 0 to 8
        invariant moves == RowsBefore(board, whiteToMove, enpassantPossible, r)
      {
        ghost var above := moves;
        for c := 0 to 8
          invariant moves == above + RowMoves(board, whiteToMove, enpassantPossible, r, c)
        {
          AppendTwo(above, RowMoves(board, whiteToMove, enpassantPossible, r, c),
                    SquareMoves(board, whiteToMove, enpassantPossible, r, c));
          moves := GetSquareMoves(r, c, moves);
        }
      }
    }

    /** The moves of the piece on (r, c), when it belongs to the side to
        move, dispatched on its kind. */
    method GetSquareMoves(r: int, c: int, moves: seq<Move>) returns (out: seq<Move>)
      requires InBoard(r, c) && NoPawnOnLastRank(board)
      ensures out == moves + SquareMoves(board, whiteToMove, enpassantPossible, r, c)
    {
      out := moves;
      match board[r][c]
      case Empty =>
      case P(color, kind) =>
        if color == SideColor(whiteToMove) {
          match kind
          case Pawn => out := GetPawnMoves(r, c, out);
          case Rook => out := GetRookMoves(r, c, out);
          case Bishop => out := GetBishopMoves(r, c, out);
          case Knight => out := GetKnightMoves(r, c, out);
          case Queen => out := GetQueenMoves(r, c, out);
          case King => out := GetKingMoves(r, c, out);
        }
    }

    /** Whether the side not to move has a pseudo-legal move onto (r, c):
        the turn is handed over for the scan and handed back. */
    method SquareUnderAttack(r: int, c: int) returns (attacked: bool)
      requires NoPawnOnLastRank(board)
      modifies this`whiteToMove
      ensures unchanged(this)
      ensures attacked <==> UnderAttack(board, whiteToMove, enpassantPossible, r, c)
    {
      whiteToMove := !whiteToMove;
      var oppMoves := GetAllPossibleMoves();
      whiteToMove := !whiteToMove;
      for i := 0 to |oppMoves|
        invariant forall j :: 0 <= j < i ==> !(oppMoves[j].endRow == r && oppMoves[j].endCol == c)
      {
        if oppMoves[i].endRow == r && oppMoves[i].endCol == c {
          return true;
        }
      }
      return false;
    }

    /** Whether the king of the side to move, at its cached square, is
        attacked. */
    method InCheck() returns (check: bool)
      requires NoPawnOnLastRank(board)
      modifies this`whiteToMove
      ensures unchanged(this)
      ensures check == MoveGen.InCheck(board, whiteToMove, enpassantPossible, whiteKingLocation, blackKingLocation)
    {
      if whiteToMove {
        check := SquareUnderAttack(whiteKingLocation.row, whiteKingLocation.col);
        return;
      }
      check := SquareUnderAttack(blackKingLocation.row, blackKingLocation.col);
    }

    method GetKingsideCastleMoves(r: int, c: int, moves: seq<Move>) returns (out: seq<Move>)
      requires InBoard(r, c) && c + 2 <= 7 && NoPawnOnLastRank(board)
      modifies this`whiteToMove
      ensures unchanged(this)
      ensures out == moves + KingsideCastleMoves(board, whiteToMove, enpassantPossible, r, c)
    {
      out := moves;
      if board[r][c + 1] == Empty && board[r][c + 2] == Empty {
        var a1 := SquareUnderAttack(r, c + 1);
        if !a1 {
          var a2 := SquareUnderAttack(r, c + 2);
          if !a2 {
            out := out + [NewMove(Sq(r, c), Sq(r, c + 2), board, isCastleMove := true)];
          }
        }
      }
    }

    method GetQueensideCastleMoves(r: int, c: int, moves: seq<Move>) returns (out: seq<Move>)
      requires InBoard(r, c) && c >= 3 && NoPawnOnLastRank(board)
      modifies this`whiteToMove
      ensures unchanged(this)
      ensures out == moves + QueensideCastleMoves(board, whiteToMove, enpassantPossible, r, c)
    {
      out := moves;
      if board[r][c - 1] == Empty && board[r][c - 2] == Empty && board[r][c - 3] == Empty {
        var a1 := SquareUnderAttack(r, c - 1);
        if !a1 {
          var a2 := SquareUnderAttack(r, c - 2);
          if !a2 {
            out := out + [NewMove(Sq(r, c), Sq(r, c - 2), board, isCastleMove := true)];
          }
        }
      }
    }

    /** The castle moves of the king on (r, c): none while in check, else
        kingside then queenside, each when its right is held. */
    method GetCastleMoves(r: int, c: int, moves: seq<Move>) returns (out: seq<Move>)
      requires NoPawnOnLastRank(board) && CastleSquaresOk(currentCastlingRight, whiteToMove, r, c)
      modifies this`whiteToMove
      ensures unchanged(this)
      ensures out == moves + CastleMoves(board, whiteToMove, enpassantPossible, currentCastlingRight,
                                         whiteKingLocation, blackKingLocation, r, c)
    {
      out := moves;
      var check := InCheck();
      if check {
        return;
      }
      if KingsideRight(currentCastlingRight, whiteToMove) {
        out := GetKingsideCastleMoves(r, c, out);
      }
      if QueensideRight(currentCastlingRight, whiteToMove) {
        out := GetQueensideCastleMoves(r, c, out);
      }
    }

    /** One round of the loop of `getValidMoves`: make m, hand the turn back
        to the mover, ask whether the mover's king is attacked, hand the turn
        over again and take m back. Everything but the castling rights comes
        back; the rights are cleared through the alias as `makeMove` leaves
        them, and the restored log entry becomes the current rights object. */
    method TryCandidate(m: Move) returns (safe: bool)
      requires Valid() && Reversible(board, m) && KingFromCache(Pos(), m)
      modifies this`board, this`whiteToMove, this`moveLog, this`whiteKingLocation, this`blackKingLocation
      modifies this`enpassantPossible, this`enpassantPossibleLog, this`currentCastlingRight, this`castleRightsLog
      modifies this`rightsAlias
      ensures Valid()
      ensures safe == Safe(old(Pos()), m)
      ensures Pos() == old(Pos()).(rights := castleRightsLog[|moveLog|])
      ensures moveLog == old(moveLog) && enpassantPossibleLog == old(enpassantPossibleLog)
      ensures castleRightsLog == old(WriteThrough(castleRightsLog, rightsAlias, UpdatedRights(currentCastlingRight, m)))
      ensures rightsAlias == Some(|moveLog|)
    {
      ghost var p := Pos();
      MakeMove(m);
      whiteToMove := !whiteToMove;
      var check := InCheck();
      safe := !check;
      whiteToMove := !whiteToMove;
      UndoMove();
      PlayRoundTrip(p, m);
    }

    /** Two rounds of the loop of `getValidMoves` in a row, starting with
        no log entry shared: the first round's `undoMove` makes log entry n
        the current rights object, so the second round's move clears its
        flags in that entry, and a king move of White's clears both of
        White's. */
    method TwoRounds(m1: Move, m2: Move) returns (safe1: bool, safe2: bool)
      requires Valid() && rightsAlias == None
      requires Reversible(board, m1) && KingFromCache(Pos(), m1)
      requires Reversible(board, m2) && KingFromCache(Pos(), m2)
      modifies this`board, this`whiteToMove, this`moveLog, this`whiteKingLocation, this`blackKingLocation
      modifies this`enpassantPossible, this`enpassantPossibleLog, this`currentCastlingRight, this`castleRightsLog
      modifies this`rightsAlias
      ensures Valid() && moveLog == old(moveLog)
      ensures castleRightsLog == old(castleRightsLog[|moveLog| := UpdatedRights(castleRightsLog[|moveLog|], m2)])
      ensures currentCastlingRight == castleRightsLog[|moveLog|]
      ensures m2.pieceMoved == P(White, King) ==>
                !castleRightsLog[|moveLog|].wks && !castleRightsLog[|moveLog|].wqs
    {
      safe1 := TryCandidate(m1);
      safe2 := TryCandidate(m2);
    }

    /** The valid moves: every candidate is made and taken back in turn,
        from the last to the first, and removed when it leaves the mover's
        king attacked. With no move left the side to move is checkmated
        when in check and stalemated otherwise; with moves left both flags
        are cleared. The position is as before, except that the rights log
        may have lost rights at its last entry and at the entry that was the
        current rights object, and the current rights are a fresh copy. */
    method GetValidMoves() returns (moves: seq<Move>)
      requires Valid() && Sound(Pos())
      modifies this
      ensures Valid() && Pos() == old(Pos())
      ensures moves == ValidMoves(old(Pos()))
      ensures moveLog == old(moveLog) && enpassantPossibleLog == old(enpassantPossibleLog)
      ensures RightsDecayed(castleRightsLog, old(castleRightsLog), |moveLog|, old(rightsAlias))
      ensures rightsAlias == None
      ensures |moves| == 0 && PositionInCheck(old(Pos())) ==> checkMate && staleMate == old(staleMate)
      ensures |moves| == 0 && !PositionInCheck(old(Pos())) ==> staleMate && checkMate == old(checkMate)
      ensures |moves| != 0 ==> !checkMate && !staleMate
    {
      ghost var p := Pos();
      moves := ValidMovesAt(p);
    }

    /** `getValidMoves` from the position p the state holds. */
    method ValidMovesAt(ghost p: Position) returns (moves: seq<Move>)
      requires Valid() && Pos() == p && Sound(p)
      modifies this`board, this`whiteToMove, this`moveLog, this`whiteKingLocation, this`blackKingLocation
      modifies this`enpassantPossible, this`enpassantPossibleLog, this`currentCastlingRight, this`castleRightsLog
      modifies this`rightsAlias, this`checkMate, this`staleMate
      ensures Valid() && Pos() == p
      ensures moves == ValidMoves(p)
      ensures moveLog == old(moveLog) && enpassantPossibleLog == old(enpassantPossibleLog)
      ensures RightsDecayed(castleRightsLog, old(castleRightsLog), |moveLog|, old(rightsAlias))
      ensures rightsAlias == None
      ensures |moves| == 0 && PositionInCheck(p) ==> checkMate && staleMate == old(staleMate)
      ensures |moves| == 0 && !PositionInCheck(p) ==> staleMate && checkMate == old(checkMate)
      ensures |moves| != 0 ==> !checkMate && !staleMate
    {
      var tempEnpassantPossible := enpassantPossible;
      var cr := currentCastlingRight;
      var tempCastleRights := CastleRights(cr.wks, cr.bks, cr.wqs, cr.bqs);
      moves := SieveCandidates(p);
      Conclude(moves, p, tempEnpassantPossible, tempCastleRights);
    }

    /** The end of `getValidMoves`: the mate flags, then the en-passant
        square and the castling rights put back from the copies taken at
        the start. */
    method Conclude(moves: seq<Move>, ghost p: Position, tempEnpassantPossible: Option<Square>,
                    tempCastleRights: CastleRights)
      requires Valid() && Pos() == p.(rights := currentCastlingRight)
      requires tempEnpassantPossible == p.enpassant && tempCastleRights == p.rights
      modifies this`whiteToMove, this`checkMate, this`staleMate
      modifies this`enpassantPossible, this`currentCastlingRight, this`rightsAlias
      ensures Valid() && Pos() == p && rightsAlias == None
      ensures |moves| == 0 && PositionInCheck(p) ==> checkMate && staleMate == old(staleMate)
      ensures |moves| == 0 && !PositionInCheck(p) ==> staleMate && checkMate == old(checkMate)
      ensures |moves| != 0 ==> !checkMate && !staleMate
    {
      SetMateFlags(moves, p);
      enpassantPossible := tempEnpassantPossible;
      currentCastlingRight := tempCastleRights;
      rightsAlias := None;
    }

    /** The candidates of p, each made, checked and taken back. */
    method SieveCandidates(ghost p: Position) returns (moves: seq<Move>)
      requires Valid() && Pos() == p && Sound(p)
      modifies this`board, this`whiteToMove, this`moveLog, this`whiteKingLocation, this`blackKingLocation
      modifies this`enpassantPossible, this`enpassantPossibleLog, this`currentCastlingRight, this`castleRightsLog
      modifies this`rightsAlias
      ensures Valid() && Pos() == p.(rights := currentCastlingRight)
      ensures moves == ValidMoves(p)
      ensures moveLog == old(moveLog) && enpassantPossibleLog == old(enpassantPossibleLog)
      ensures RightsDecayed(castleRightsLog, old(castleRightsLog), |moveLog|, old(rightsAlias))
      ensures checkMate == old(checkMate) && staleMate == old(staleMate)
    {
      moves := GenerateAndFilter(p);
    }

    /** The candidates generated, then sieved by the make / test / undo loop. */
    method GenerateAndFilter(ghost p: Position) returns (moves: seq<Move>)
      requires Valid() && Pos() == p && Sound(p)
      modifies this`board, this`whiteToMove, this`moveLog, this`whiteKingLocation, this`blackKingLocation
      modifies this`enpassantPossible, this`enpassantPossibleLog, this`currentCastlingRight, this`castleRightsLog
      modifies this`rightsAlias
      ensures Valid() && Pos() == p.(rights := currentCastlingRight)
      ensures moves == ValidMoves(p)
      ensures moveLog == old(moveLog) && enpassantPossibleLog == old(enpassantPossibleLog)
      ensures RightsDecayed(castleRightsLog, old(castleRightsLog), |moveLog|, old(rightsAlias))
    {
      var cands := GetCandidates(p);
      CandidatesTestable(p);
      moves := FilterCandidates(p, cands);
    }

    /** The moves `getValidMoves` tests: all pseudo-legal moves, then the
        castle moves of the own king at its cached square. */
    method GetCandidates(ghost p: Position) returns (moves: seq<Move>)
      requires Pos() == p && Sound(p)
      modifies this`whiteToMove
      ensures unchanged(this)
      ensures moves == Candidates(p)
    {
      moves := GetAllPossibleMoves();
      if whiteToMove {
        moves := GetCastleMoves(whiteKingLocation.row, whiteKingLocation.col, moves);
      } else {
        moves := GetCastleMoves(blackKingLocation.row, blackKingLocation.col, moves);
      }
    }

    /** Checkmate or stalemate when no move is left, neither otherwise. */
    method SetMateFlags(moves: seq<Move>, ghost p: Position)
      requires Pos() == p.(rights := currentCastlingRight) && NoPawnOnLastRank(p.board)
      modifies this`whiteToMove, this`checkMate, this`staleMate
      ensures whiteToMove == old(whiteToMove)
      ensures |moves| == 0 && PositionInCheck(p) ==> checkMate && staleMate == old(staleMate)
      ensures |moves| == 0 && !PositionInCheck(p) ==> staleMate && checkMate == old(checkMate)
      ensures |moves| != 0 ==> !checkMate && !staleMate
    {
      if |moves| == 0 {
        var check := InCheck();
        if check {
          checkMate := true;
        } else {
          staleMate := true;
        }
      } else {
        checkMate := false;
        staleMate := false;
      }
    }

    /** The loop of `getValidMoves` over the candidates of p0, from the last
        to the first. */
    method FilterCandidates(ghost p0: Position, cands: seq<Move>) returns (moves: seq<Move>)
      requires Valid() && Testable(p0, cands)
      requires Pos() == p0
      modifies this`board, this`whiteToMove, this`moveLog, this`whiteKingLocation, this`blackKingLocation
      modifies this`enpassantPossible, this`enpassantPossibleLog, this`currentCastlingRight, this`castleRightsLog
      modifies this`rightsAlias
      ensures Valid() && Pos() == p0.(rights := currentCastlingRight)
      ensures moves == Sieve(p0, cands)
      ensures moveLog == old(moveLog) && enpassantPossibleLog == old(enpassantPossibleLog)
      ensures RightsDecayed(castleRightsLog, old(castleRightsLog), |moveLog|, old(rightsAlias))
    {
      ghost var keep := Verdicts(p0, cands);
      ghost var n := |moveLog|;
      ghost var alias0 := rightsAlias;
      moves := cands;
      var i := |moves|;
      while i > 0
        invariant 0 <= i <= |cands|
        invariant moves == cands[..i] + Filter(cands[i..], keep[i..])
        invariant Valid() && Pos() == p0.(rights := currentCastlingRight)
        invariant moveLog == old(moveLog) && enpassantPossibleLog == old(enpassantPossibleLog)
        invariant RightsDecayed(castleRightsLog, old(castleRightsLog), n, alias0)
        invariant rightsAlias == alias0 || rightsAlias == Some(n)
      {
        i := i - 1;
        moves := SieveStep(p0, cands, keep, i, moves, old(castleRightsLog), alias0);
      }
      SieveWhole(p0, cands, keep, moves);
    }

    /** One pass of the backward loop of `getValidMoves`: candidate i is
        made, checked and taken back, and removed when it leaves the king
        attacked. */
    method SieveStep(ghost p0: Position, cands: seq<Move>, ghost keep: seq<bool>, i: nat, moves0: seq<Move>,
                     ghost log0: seq<CastleRights>, ghost alias0: Option<nat>) returns (moves: seq<Move>)
      requires Valid() && Testable(p0, cands) && keep == Verdicts(p0, cands) && i < |cands|
      requires moves0 == cands[..i + 1] + Filter(cands[i + 1..], keep[i + 1..])
      requires Pos() == p0.(rights := currentCastlingRight)
      requires RightsDecayed(castleRightsLog, log0, |moveLog|, alias0)
      requires rightsAlias == alias0 || rightsAlias == Some(|moveLog|)
      modifies this`board, this`whiteToMove, this`moveLog, this`whiteKingLocation, this`blackKingLocation
      modifies this`enpassantPossible, this`enpassantPossibleLog, this`currentCastlingRight, this`castleRightsLog
      modifies this`rightsAlias
      ensures Valid() && Pos() == p0.(rights := currentCastlingRight)
      ensures moves == cands[..i] + Filter(cands[i..], keep[i..])
      ensures moveLog == old(moveLog) && enpassantPossibleLog == old(enpassantPossibleLog)
      ensures RightsDecayed(castleRightsLog, log0, |moveLog|, alias0)
      ensures rightsAlias == Some(|moveLog|)
    {
      moves := moves0;
      FilterStep(cands, keep, i, moves);
      assert moves[i] == cands[i];
      WriteThroughDecays(castleRightsLog, log0, |moveLog|, alias0, rightsAlias, currentCastlingRight, moves[i]);
      SafeIgnoresRights(p0, moves[i], currentCastlingRight);
      var safe := TryCandidate(moves[i]);
      if !safe {
        moves := RemoveFirst(moves, moves[i]);
      }
    }

    // -------------------------------------------------------------------
    // The rights aliasing corrected: `undoMove` takes a copy of the logged
    // rights instead of the logged object itself, so no rights object is
    // ever shared with the log, and `getValidMoves` leaves the log as it
    // found it.

    /** `undoMove` with the current rights a fresh copy of the restored log
        entry. */
    method UndoMoveFixed()
      requires Valid()
      modifies this`board, this`whiteToMove, this`moveLog, this`whiteKingLocation, this`blackKingLocation
      modifies this`enpassantPossible, this`enpassantPossibleLog, this`currentCastlingRight, this`castleRightsLog
      modifies this`rightsAlias
      ensures Valid()
      ensures old(|moveLog|) == 0 ==> unchanged(this)
      ensures old(|moveLog|) > 0 ==>
                var n := old(|moveLog|);
                Pos() == Undone(old(Pos()), old(moveLog[n - 1]),
                                old(enpassantPossibleLog[n - 1]), old(castleRightsLog[n - 1]))
                && moveLog == old(moveLog[..n - 1])
                && enpassantPossibleLog == old(enpassantPossibleLog[..n])
                && castleRightsLog == old(castleRightsLog[..n])
                && rightsAlias == None
    {
      if |moveLog| != 0 {
        var move := moveLog[|moveLog| - 1];
        AllPlayablePrefix(moveLog, |moveLog| - 1);
        moveLog := moveLog[..|moveLog| - 1];
        BoardUndoneKeepsPawnRule(board, move);
        ReturnPieces(move);
        PopLogsFixed();
        ReturnCastleRook(move);
      }
    }

    /** The logs drop their last entries; the current rights become a copy
        of the rights log's new last entry. */
    method PopLogsFixed()
      requires |enpassantPossibleLog| >= 2 && |castleRightsLog| >= 2
      modifies this`enpassantPossibleLog, this`enpassantPossible
      modifies this`castleRightsLog, this`currentCastlingRight, this`rightsAlias
      ensures enpassantPossibleLog == old(enpassantPossibleLog[..|enpassantPossibleLog| - 1])
      ensures enpassantPossible == enpassantPossibleLog[|enpassantPossibleLog| - 1]
      ensures castleRightsLog == old(castleRightsLog[..|castleRightsLog| - 1])
      ensures currentCastlingRight == castleRightsLog[|castleRightsLog| - 1]
      ensures rightsAlias == None
    {
      enpassantPossibleLog := enpassantPossibleLog[..|enpassantPossibleLog| - 1];
      enpassantPossible := enpassantPossibleLog[|enpassantPossibleLog| - 1];
      castleRightsLog := castleRightsLog[..|castleRightsLog| - 1];
      var nr := castleRightsLog[|castleRightsLog| - 1];
      currentCastlingRight := CastleRights(nr.wks, nr.bks, nr.wqs, nr.bqs);
      rightsAlias := None;
    }

    /** One round of the corrected loop: with no rights object shared, the
        rights log comes back unchanged. */
    method TryCandidateFixed(m: Move) returns (safe: bool)
      requires Valid() && Reversible(board, m) && KingFromCache(Pos(), m) && rightsAlias == None
      modifies this`board, this`whiteToMove, this`moveLog, this`whiteKingLocation, this`blackKingLocation
      modifies this`enpassantPossible, this`enpassantPossibleLog, this`currentCastlingRight, this`castleRightsLog
      modifies this`rightsAlias
      ensures Valid()
      ensures safe == Safe(old(Pos()), m)
      ensures Pos() == old(Pos()).(rights := castleRightsLog[|moveLog|])
      ensures moveLog == old(moveLog) && enpassantPossibleLog == old(enpassantPossibleLog)
      ensures castleRightsLog == old(castleRightsLog) && rightsAlias == None
    {
      ghost var p := Pos();
      MakeMove(m);
      whiteToMove := !whiteToMove;
      var check := InCheck();
      safe := !check;
      whiteToMove := !whiteToMove;
      UndoMoveFixed();
      PlayRoundTrip(p, m);
    }

    /** `getValidMoves` with the corrected `undoMove`: as `GetValidMoves`,
        and the rights log is left exactly as it was. */
    method GetValidMovesFixed() returns (moves: seq<Move>)
      requires Valid() && Sound(Pos()) && rightsAlias == None
      modifies this
      ensures Valid() && Pos() == old(Pos())
      ensures moves == ValidMoves(old(Pos()))
      ensures moveLog == old(moveLog) && enpassantPossibleLog == old(enpassantPossibleLog)
      ensures castleRightsLog == old(castleRightsLog) && rightsAlias == None
      ensures |moves| == 0 && PositionInCheck(old(Pos())) ==> checkMate && staleMate == old(staleMate)
      ensures |moves| == 0 && !PositionInCheck(old(Pos())) ==> staleMate && checkMate == old(checkMate)
      ensures |moves| != 0 ==> !checkMate && !staleMate
    {
      ghost var p := Pos();
      moves := ValidMovesAtFixed(p);
    }

    method ValidMovesAtFixed(ghost p: Position) returns (moves: seq<Move>)
      requires Valid() && Pos() == p && Sound(p) && rightsAlias == None
      modifies this`board, this`whiteToMove, this`moveLog, this`whiteKingLocation, this`blackKingLocation
      modifies this`enpassantPossible, this`enpassantPossibleLog, this`currentCastlingRight, this`castleRightsLog
      modifies this`rightsAlias, this`checkMate, this`staleMate
      ensures Valid() && Pos() == p
      ensures moves == ValidMoves(p)
      ensures moveLog == old(moveLog) && enpassantPossibleLog == old(enpassantPossibleLog)
      ensures castleRightsLog == old(castleRightsLog) && rightsAlias == None
      ensures |moves| == 0 && PositionInCheck(p) ==> checkMate && staleMate == old(staleMate)
      ensures |moves| == 0 && !PositionInCheck(p) ==> staleMate && checkMate == old(checkMate)
      ensures |moves| != 0 ==> !checkMate && !staleMate
    {
      var tempEnpassantPossible := enpassantPossible;
      var cr := currentCastlingRight;
      var tempCastleRights := CastleRights(cr.wks, cr.bks, cr.wqs, cr.bqs);
      moves := SieveCandidatesFixed(p);
      Conclude(moves, p, tempEnpassantPossible, tempCastleRights);
    }

    method SieveCandidatesFixed(ghost p: Position) returns (moves: seq<Move>)
      requires Valid() && Pos() == p && Sound(p) && rightsAlias == None
      modifies this`board, this`whiteToMove, this`moveLog, this`whiteKingLocation, this`blackKingLocation
      modifies this`enpassantPossible, this`enpassantPossibleLog, this`currentCastlingRight, this`castleRightsLog
      modifies this`rightsAlias
      ensures Valid() && Pos() == p.(rights := currentCastlingRight)
      ensures moves == ValidMoves(p)
      ensures moveLog == old(moveLog) && enpassantPossibleLog == old(enpassantPossibleLog)
      ensures castleRightsLog == old(castleRightsLog) && rightsAlias == None
      ensures checkMate == old(checkMate) && staleMate == old(staleMate)
    {
      moves := GenerateAndFilterFixed(p);
    }

    /** The candidates generated, then sieved by the make / test / undo loop. */
    method GenerateAndFilterFixed(ghost p: Position) returns (moves: seq<Move>)
      requires Valid() && Pos() == p && Sound(p) && rightsAlias == None
      modifies this`board, this`whiteToMove, this`moveLog, this`whiteKingLocation, this`blackKingLocation
      modifies this`enpassantPossible, this`enpassantPossibleLog, this`currentCastlingRight, this`castleRightsLog
      modifies this`rightsAlias
      ensures Valid() && Pos() == p.(rights := currentCastlingRight)
      ensures moves == ValidMoves(p)
      ensures moveLog == old(moveLog) && enpassantPossibleLog == old(enpassantPossibleLog)
      ensures castleRightsLog == old(castleRightsLog) && rightsAlias == None
    {
      var cands := GetCandidates(p);
      CandidatesTestable(p);
      moves := FilterCandidatesFixed(p, cands);
    }

    method FilterCandidatesFixed(ghost p0: Position, cands: seq<Move>) returns (moves: seq<Move>)
      requires Valid() && Testable(p0, cands)
      requires Pos() == p0 && rightsAlias == None
      modifies this`board, this`whiteToMove, this`moveLog, this`whiteKingLocation, this`blackKingLocation
      modifies this`enpassantPossible, this`enpassantPossibleLog, this`currentCastlingRight, this`castleRightsLog
      modifies this`rightsAlias
      ensures Valid() && Pos() == p0.(rights := currentCastlingRight)
      ensures moves == Sieve(p0, cands)
      ensures moveLog == old(moveLog) && enpassantPossibleLog == old(enpassantPossibleLog)
      ensures castleRightsLog == old(castleRightsLog) && rightsAlias == None
    {
      ghost var keep := Verdicts(p0, cands);
      moves := cands;
      var i := |moves|;
      while i > 0
        invariant 0 <= i <= |cands|
        invariant moves == cands[..i] + Filter(cands[i..], keep[i..])
        invariant Valid() && Pos() == p0.(rights := currentCastlingRight)
        invariant moveLog == old(moveLog) && enpassantPossibleLog == old(enpassantPossibleLog)
        invariant castleRightsLog == old(castleRightsLog) && rightsAlias == None
      {
        i := i - 1;
        moves := SieveStepFixed(p0, cands, keep, i, moves);
      }
      SieveWhole(p0, cands, keep, moves);
    }

    method SieveStepFixed(ghost p0: Position, cands: seq<Move>, ghost keep: seq<bool>, i: nat, moves0: seq<Move>)
      returns (moves: seq<Move>)
      requires Valid() && Testable(p0, cands) && keep == Verdicts(p0, cands) && i < |cands|
      requires moves0 == cands[..i + 1] + Filter(cands[i + 1..], keep[i + 1..])
      requires Pos() == p0.(rights := currentCastlingRight) && rightsAlias == None
      modifies this`board, this`whiteToMove, this`moveLog, this`whiteKingLocation, this`blackKingLocation
      modifies this`enpassantPossible, this`enpassantPossibleLog, this`currentCastlingRight, this`castleRightsLog
      modifies this`rightsAlias
      ensures Valid() && Pos() == p0.(rights := currentCastlingRight)
      ensures moves == cands[..i] + Filter(cands[i..], keep[i..])
      ensures moveLog == old(moveLog) && enpassantPossibleLog == old(enpassantPossibleLog)
      ensures castleRightsLog == old(castleRightsLog) && rightsAlias == None
    {
      moves := moves0;
      FilterStep(cands, keep, i, moves);
      assert moves[i] == cands[i];
      SafeIgnoresRights(p0, moves[i], currentCastlingRight);
      var safe := TryCandidateFixed(moves[i]);
      if !safe {
        moves := RemoveFirst(moves, moves[i]);
      }
    }
  }
}
