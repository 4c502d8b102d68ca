/** Castling rights: four independent flags and the rule that clears them
    when a king or a rook leaves its home square. */
module Castling {
  import opened ChessBoard
  import opened Moves

  /** The constructor's argument order is (wks, bks, wqs, bqs): White
      kingside, Black kingside, White queenside, Black queenside. */
  datatype CastleRights = CastleRights(wks: bool, bks: bool, wqs: bool, bqs: bool)

  /** `after` holds no right that `before` did not hold. */
  predicate NoneGained(after: CastleRights, before: CastleRights) {
    (after.wks ==> before.wks) && (after.bks ==> before.bks) &&
    (after.wqs ==> before.wqs) && (after.bqs ==> before.bqs)
  }

  /** `UpdateCastleRights(move)` on a value: a king move drops both rights
      of its colour, a rook leaving its home corner drops that corner's right.
      Only the moved piece is looked at: taking a rook on its corner leaves
      the other side's right in place. */
  function UpdatedRights(cr: CastleRights, move: Move): (r: CastleRights)
    ensures NoneGained(r, cr)
    ensures r.wks <==> (cr.wks && move.pieceMoved != P(White, King)
                        && !(move.pieceMoved == P(White, Rook) && move.StartSq() == Sq(7, 7)))
    ensures r.wqs <==> (cr.wqs && move.pieceMoved != P(White, King)
                        && !(move.pieceMoved == P(White, Rook) && move.StartSq() == Sq(7, 0)))
    ensures r.bks <==> (cr.bks && move.pieceMoved != P(Black, King)
                        && !(move.pieceMoved == P(Black, Rook) && move.StartSq() == Sq(0, 7)))
    ensures r.bqs <==> (cr.bqs && move.pieceMoved != P(Black, King)
                        && !(move.pieceMoved == P(Black, Rook) && move.StartSq() == Sq(0, 0)))
  {
    if move.pieceMoved == P(White, King) then
      cr.(wks := false, wqs := false)
    else if move.pieceMoved == P(Black, King) then
      cr.(bks := false, bqs := false)
    else if move.pieceMoved == P(White, Rook) then
      if move.startRow == 7 then
        if move.startCol == 0 then cr.(wqs := false)
        else if move.startCol == 7 then cr.(wks := false)
        else cr
      else cr
    else if move.pieceMoved == P(Black, Rook) then
      if move.startRow == 0 then
        if move.startCol == 0 then cr.(bqs := false)
        else if move.startCol == 7 then cr.(bks := false)
        else cr
      else cr
    else cr
  }

  /** The rights after a sequence of moves, each one updating the last. */
  function RightsAfter(cr: CastleRights, moves: seq<Move>): CastleRights
    decreases |moves|
  {
    if moves == [] then cr
    else RightsAfter(UpdatedRights(cr, moves[0]), moves[1..])
  }

  /** Once cleared by a move, a right is never set again by later moves. */
  lemma {:induction false} RightsNeverRegained(cr: CastleRights, moves: seq<Move>)
    ensures NoneGained(RightsAfter(cr, moves), cr)
    decreases |moves|
  {
    if moves != [] {
      RightsNeverRegained(UpdatedRights(cr, moves[0]), moves[1..]);
    }
  }
}
