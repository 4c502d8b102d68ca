/** No two moves the generators produce share both squares, so no two share
    a move identifier: within one piece's moves the end squares differ, and
    moves of different pieces start on different squares. */
module MoveGenDistinct {
  import opened Wrappers
  import opened ChessBoard
  import opened Moves
  import opened MoveGen
  import opened MoveGenProps

  predicate DistinctEnds(s: seq<Move>) {
    forall i, j :: 0 <= i < j < |s| ==> s[i].EndSq() != s[j].EndSq()
  }

  /** No two moves of the list have the same start and the same end. */
  predicate DistinctSquares(s: seq<Move>) {
    forall i, j :: 0 <= i < j < |s| ==> s[i].StartSq() != s[j].StartSq() || s[i].EndSq() != s[j].EndSq()
  }

  predicate DistinctPairs(t: seq<(int, int)>) {
    forall i, j :: 0 <= i < j < |t| ==> t[i] != t[j]
  }

  lemma DistinctEndsAppend(a: seq<Move>, b: seq<Move>)
    requires DistinctEnds(a) && DistinctEnds(b)
    requires forall x, y :: x in a && y in b ==> x.EndSq() != y.EndSq()
    ensures DistinctEnds(a + b)
  {
    forall i, j | 0 <= i < j < |a + b|
      ensures (a + b)[i].EndSq() != (a + b)[j].EndSq()
    {
      if j < |a| {
      } else if i >= |a| {
        assert (a + b)[i] == b[i - |a|] && (a + b)[j] == b[j - |a|];
      } else {
        assert (a + b)[i] in a && (a + b)[j] in b;
      }
    }
  }

  lemma DistinctEndsSnoc(t: seq<Move>, m: Move)
    requires DistinctEnds(t)
    requires forall x :: x in t ==> x.EndSq() != m.EndSq()
    ensures DistinctEnds(t + [m])
  {
    forall i, j | 0 <= i < j < |t + [m]|
      ensures (t + [m])[i].EndSq() != (t + [m])[j].EndSq()
    {
      if j == |t| {
        assert (t + [m])[i] == t[i] && t[i] in t;
      }
    }
  }

  lemma DistinctSquaresAppend(a: seq<Move>, b: seq<Move>)
    requires DistinctSquares(a) && DistinctSquares(b)
    requires forall x, y :: x in a && y in b ==> x.StartSq() != y.StartSq() || x.EndSq() != y.EndSq()
    ensures DistinctSquares(a + b)
  {
    forall i, j | 0 <= i < j < |a + b|
      ensures (a + b)[i].StartSq() != (a + b)[j].StartSq() || (a + b)[i].EndSq() != (a + b)[j].EndSq()
    {
      if j < |a| {
      } else if i >= |a| {
        assert (a + b)[i] == b[i - |a|] && (a + b)[j] == b[j - |a|];
      } else {
        assert (a + b)[i] in a && (a + b)[j] in b;
      }
    }
  }

  // ---------------------------------------------------------------------
  // Per piece.

  lemma PawnPushesDistinct(b: Board, whiteToMove: bool, r: int, c: int)
    requires InBoard(r, c)
    requires whiteToMove ==> r >= 1
    requires !whiteToMove ==> r <= 6
    ensures DistinctEnds(PawnPushes(b, whiteToMove, r, c))
    ensures forall m :: m in PawnPushes(b, whiteToMove, r, c) ==> m.endCol == c
  {
  }

  lemma PawnCaptureEnd(b: Board, whiteToMove: bool, ep: Option<Square>, r: int, c: int, tr: int, tc: int)
    requires InBoard(r, c) && InBoard(tr, tc)
    ensures |PawnCapture(b, whiteToMove, ep, r, c, tr, tc)| <= 1
    ensures forall m :: m in PawnCapture(b, whiteToMove, ep, r, c, tr, tc) ==> m.EndSq() == Sq(tr, tc)
  {
  }

  /** Pushes along column c, then at most one move ending on each side
      diagonal, end on different squares. */
  lemma PawnPartsDistinct(pushes: seq<Move>, left: seq<Move>, right: seq<Move>, fr: int, c: int)
    requires DistinctEnds(pushes) && forall m :: m in pushes ==> m.endCol == c
    requires |left| <= 1 && forall m :: m in left ==> m.EndSq() == Sq(fr, c - 1)
    requires |right| <= 1 && forall m :: m in right ==> m.EndSq() == Sq(fr, c + 1)
    ensures DistinctEnds(pushes + left + right)
  {
    DistinctEndsAppend(pushes, left);
    DistinctEndsAppend(pushes + left, right);
  }

  lemma PawnMovesDistinct(b: Board, whiteToMove: bool, ep: Option<Square>, r: int, c: int)
    requires InBoard(r, c)
    requires whiteToMove ==> r >= 1
    requires !whiteToMove ==> r <= 6
    ensures DistinctEnds(PawnMoves(b, whiteToMove, ep, r, c))
  {
    var fr := r + Forward(whiteToMove);
    var pushes := PawnPushes(b, whiteToMove, r, c);
    var left := if c - 1 >= 0 then PawnCapture(b, whiteToMove, ep, r, c, fr, c - 1) else [];
    var right := if c + 1 <= 7 then PawnCapture(b, whiteToMove, ep, r, c, fr, c + 1) else [];
    PawnPushesDistinct(b, whiteToMove, r, c);
    if c - 1 >= 0 { PawnCaptureEnd(b, whiteToMove, ep, r, c, fr, c - 1); }
    if c + 1 <= 7 { PawnCaptureEnd(b, whiteToMove, ep, r, c, fr, c + 1); }
    PawnPartsDistinct(pushes, left, right, fr, c);
  }

  /** Two different offsets from one square reach different squares. */
  lemma OffsetsApart(r: int, c: int, a: (int, int), d: (int, int))
    requires a != d
    ensures Sq(r + a.0, c + a.1) != Sq(r + d.0, c + d.1)
  {
  }

  /** The steps of a table without repeated offsets end on distinct
      squares. */
  lemma {:induction false} StepMovesDistinct(b: Board, whiteToMove: bool, r: int, c: int,
                                             offsets: seq<(int, int)>, k: nat)
    requires InBoard(r, c) && k <= |offsets| && DistinctPairs(offsets)
    ensures DistinctEnds(StepMoves(b, whiteToMove, r, c, offsets, k))
  {
    if k > 0 {
      StepMovesDistinct(b, whiteToMove, r, c, offsets, k - 1);
      StepMovesFrom(b, whiteToMove, r, c, offsets, k - 1);
      var t := StepMoves(b, whiteToMove, r, c, offsets, k - 1);
      var tr, tc := r + offsets[k - 1].0, c + offsets[k - 1].1;
      if InBoard(tr, tc) && (b[tr][tc] == Empty || IsEnemy(b[tr][tc], whiteToMove)) {
        var m := NewMove(Sq(r, c), Sq(tr, tc), b);
        forall x | x in t
          ensures x.EndSq() != Sq(tr, tc)
        {
          var j :| 0 <= j < k - 1 && x.StartSq() == Sq(r, c)
                   && x.EndSq() == Sq(r + offsets[j].0, c + offsets[j].1);
          OffsetsApart(r, c, offsets[j], offsets[k - 1]);
        }
        DistinctEndsSnoc(t, m);
        assert StepMoves(b, whiteToMove, r, c, offsets, k) == t + [m];
      } else {
        assert StepMoves(b, whiteToMove, r, c, offsets, k) == t;
      }
    }
  }

  /** A ray's squares are distinct: each lies further along than the one
      before. */
  lemma {:induction false} RayMovesDistinct(b: Board, whiteToMove: bool, r: int, c: int,
                                            dr: int, dc: int, nr: int, nc: int)
    requires InBoard(r, c) && InBoard(nr, nc) && IsDirection(dr, dc) && IsOwn(b[r][c], whiteToMove)
    requires (nr == r && nc == c) || Heading(r, c, dr, dc, nr, nc)
    ensures DistinctEnds(RayMoves(b, whiteToMove, r, c, dr, dc, nr, nc))
    decreases RayMeasure(dr, dc, nr, nc)
  {
    if InBoard(nr + dr, nc + dc) && b[nr + dr][nc + dc] == Empty {
      var tr, tc := nr + dr, nc + dc;
      assert Heading(r, c, dr, dc, tr, tc);
      RayMovesDistinct(b, whiteToMove, r, c, dr, dc, tr, tc);
      RayMovesSound(b, whiteToMove, r, c, dr, dc, tr, tc);
      var m := NewMove(Sq(r, c), Sq(tr, tc), b);
      var t := RayMoves(b, whiteToMove, r, c, dr, dc, tr, tc);
      assert RayMoves(b, whiteToMove, r, c, dr, dc, nr, nc) == [m] + t;
      DistinctEndsAppend([m], t);
    }
  }

  /** The rays of a table without repeated directions end on distinct
      squares, and each move heads along one of the table's directions. */
  lemma {:induction false} RaysMovesDistinct(b: Board, whiteToMove: bool, r: int, c: int,
                                             dirs: seq<(int, int)>, k: nat)
    requires InBoard(r, c) && k <= |dirs| && AllDirections(dirs) && DistinctPairs(dirs)
    requires IsOwn(b[r][c], whiteToMove)
    ensures DistinctEnds(RaysMoves(b, whiteToMove, r, c, dirs, k))
    ensures forall m :: m in RaysMoves(b, whiteToMove, r, c, dirs, k) ==>
              exists j :: 0 <= j < k && Heading(r, c, dirs[j].0, dirs[j].1, m.endRow, m.endCol)
  {
    if k > 0 {
      RaysMovesDistinct(b, whiteToMove, r, c, dirs, k - 1);
      var t := RaysMoves(b, whiteToMove, r, c, dirs, k - 1);
      var ray := RayMoves(b, whiteToMove, r, c, dirs[k - 1].0, dirs[k - 1].1, r, c);
      RayMovesDistinct(b, whiteToMove, r, c, dirs[k - 1].0, dirs[k - 1].1, r, c);
      RayMovesSound(b, whiteToMove, r, c, dirs[k - 1].0, dirs[k - 1].1, r, c);
      forall x, y | x in t && y in ray
        ensures x.EndSq() != y.EndSq()
      {
        var j :| 0 <= j < k - 1 && Heading(r, c, dirs[j].0, dirs[j].1, x.endRow, x.endCol);
        assert dirs[j] != dirs[k - 1];
      }
      DistinctEndsAppend(t, ray);
    }
  }

  lemma TablesDistinct()
    ensures DistinctPairs(RookDirections) && DistinctPairs(BishopDirections)
    ensures DistinctPairs(KnightOffsets) && DistinctPairs(KingOffsets)
    ensures AllDirections(RookDirections) && AllDirections(BishopDirections)
    ensures forall i, j :: 0 <= i < 4 && 0 <= j < 4 ==> RookDirections[i] != BishopDirections[j]
  {
  }

  lemma QueenMovesDistinct(b: Board, whiteToMove: bool, r: int, c: int)
    requires InBoard(r, c) && IsOwn(b[r][c], whiteToMove)
    ensures DistinctEnds(QueenMoves(b, whiteToMove, r, c))
  {
    TablesDistinct();
    RaysMovesDistinct(b, whiteToMove, r, c, BishopDirections, 4);
    RaysMovesDistinct(b, whiteToMove, r, c, RookDirections, 4);
    var bs := BishopMoves(b, whiteToMove, r, c);
    var rs := RookMoves(b, whiteToMove, r, c);
    forall x, y | x in bs && y in rs
      ensures x.EndSq() != y.EndSq()
    {
      var i :| 0 <= i < 4 && Heading(r, c, BishopDirections[i].0, BishopDirections[i].1, x.endRow, x.endCol);
      var j :| 0 <= j < 4 && Heading(r, c, RookDirections[j].0, RookDirections[j].1, y.endRow, y.endCol);
      assert RookDirections[j] != BishopDirections[i];
    }
    DistinctEndsAppend(bs, rs);
  }

  /** The moves generated for one square end on distinct squares. */
  lemma SquareMovesDistinct(b: Board, whiteToMove: bool, ep: Option<Square>, r: int, c: int)
    requires InBoard(r, c) && NoPawnOnLastRank(b)
    ensures DistinctEnds(SquareMoves(b, whiteToMove, ep, r, c))
  {
    TablesDistinct();
    match b[r][c]
    case Empty =>
    case P(color, kind) =>
      if color == SideColor(whiteToMove) {
        match kind
        case Pawn => PawnMovesDistinct(b, whiteToMove, ep, r, c);
        case Knight => StepMovesDistinct(b, whiteToMove, r, c, KnightOffsets, 8);
        case King => StepMovesDistinct(b, whiteToMove, r, c, KingOffsets, 8);
        case Rook => RaysMovesDistinct(b, whiteToMove, r, c, RookDirections, 4);
        case Bishop => RaysMovesDistinct(b, whiteToMove, r, c, BishopDirections, 4);
        case Queen => QueenMovesDistinct(b, whiteToMove, r, c);
      }
  }

  // ---------------------------------------------------------------------
  // The board scan.

  /** Every move of the scan comes from the rule of the square it starts
      on. */
  lemma {:induction false} RowMovesFrom(b: Board, whiteToMove: bool, ep: Option<Square>, r: int, c: nat)
    requires 0 <= r < 8 && c <= 8 && NoPawnOnLastRank(b)
    ensures forall m :: m in RowMoves(b, whiteToMove, ep, r, c) ==>
              InBoard(m.startRow, m.startCol) && m in SquareMoves(b, whiteToMove, ep, m.startRow, m.startCol)
  {
    if c > 0 {
      RowMovesFrom(b, whiteToMove, ep, r, c - 1);
      SquareMovesSound(b, whiteToMove, ep, r, c - 1);
    }
  }

  lemma {:induction false} RowsBeforeFrom(b: Board, whiteToMove: bool, ep: Option<Square>, r: nat)
    requires r <= 8 && NoPawnOnLastRank(b)
    ensures forall m :: m in RowsBefore(b, whiteToMove, ep, r) ==>
              InBoard(m.startRow, m.startCol) && m in SquareMoves(b, whiteToMove, ep, m.startRow, m.startCol)
  {
    if r > 0 {
      RowsBeforeFrom(b, whiteToMove, ep, r - 1);
      RowMovesFrom(b, whiteToMove, ep, r - 1, 8);
    }
  }

  /** Within a row the squares' moves start on different squares. */
  lemma {:induction false} RowMovesDistinct(b: Board, whiteToMove: bool, ep: Option<Square>, r: int, c: nat)
    requires 0 <= r < 8 && c <= 8 && NoPawnOnLastRank(b)
    ensures DistinctSquares(RowMoves(b, whiteToMove, ep, r, c))
  {
    if c > 0 {
      RowMovesDistinct(b, whiteToMove, ep, r, c - 1);
      RowMovesSound(b, whiteToMove, ep, r, c - 1);
      SquareMovesSound(b, whiteToMove, ep, r, c - 1);
      SquareMovesDistinct(b, whiteToMove, ep, r, c - 1);
      var t := RowMoves(b, whiteToMove, ep, r, c - 1);
      var s := SquareMoves(b, whiteToMove, ep, r, c - 1);
      forall x, y | x in t && y in s
        ensures x.StartSq() != y.StartSq()
      {
        assert x.startCol < c - 1 && y.startCol == c - 1;
      }
      DistinctSquaresAppend(t, s);
    }
  }

  /** The rows' moves start on different rows. */
  lemma {:induction false} RowsBeforeDistinct(b: Board, whiteToMove: bool, ep: Option<Square>, r: nat)
    requires r <= 8 && NoPawnOnLastRank(b)
    ensures DistinctSquares(RowsBefore(b, whiteToMove, ep, r))
  {
    if r > 0 {
      RowsBeforeDistinct(b, whiteToMove, ep, r - 1);
      RowsBeforeSound(b, whiteToMove, ep, r - 1);
      RowMovesSound(b, whiteToMove, ep, r - 1, 8);
      RowMovesDistinct(b, whiteToMove, ep, r - 1, 8);
      var t := RowsBefore(b, whiteToMove, ep, r - 1);
      var s := RowMoves(b, whiteToMove, ep, r - 1, 8);
      forall x, y | x in t && y in s
        ensures x.StartSq() != y.StartSq()
      {
        assert x.startRow < r - 1 && y.startRow == r - 1;
      }
      DistinctSquaresAppend(t, s);
    }
  }

  /** `getAllPossibleMoves` never lists two moves with the same squares,
      hence never two equal ones. */
  lemma AllPossibleMovesDistinct(b: Board, whiteToMove: bool, ep: Option<Square>)
    requires NoPawnOnLastRank(b)
    ensures DistinctSquares(AllPossibleMoves(b, whiteToMove, ep))
  {
    RowsBeforeDistinct(b, whiteToMove, ep, 8);
  }
}
