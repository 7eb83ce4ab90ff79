/**
 * The move value the generator emits. The engine packs a move into an
 * integer; here it is a record of its origin, destination, moving piece,
 * captured piece (Empty when none), promotion kind and special-move tag.
 * `NoMove` is the zero move the engine uses as "no move".
 *
 * The constructors below stand in for the engine's move encoder, which is
 * not part of this model: each records its arguments, the piece on the
 * origin and the piece the move captures.
 */
module Moves {
  import opened Board

  datatype Special = Plain | Castle | Enpassant | PawnJump

  datatype Promotion = NoPromotion | PromoteTo(kind: Kind)

  datatype Move =
    | NoMove
    | Move(from: Square, to: Square, piece: Piece, captured: Piece, promo: Promotion, special: Special)
  {
    /** `capture() != 0`. */
    predicate IsCapture() {
      Move? && captured != Empty
    }

    /** `promo() != 0`. */
    predicate IsPromo() {
      Move? && promo != NoPromotion
    }
  }

  /** The promotion kinds, in the order the generators emit them. */
  const PROMOTIONS: seq<Kind> := [Queen, Rook, Bishop, Knight]

  /**
   * The piece a move onto `to` captures: the piece standing there, or, on
   * the non-zero en-passant square, which is empty, the opponent's pawn
   * that passed it.
   */
  function Captured(p: Position, to: Square): Piece {
    if p.enpassant != 0 && to == p.enpassant then Piece(Pawn, Other(p.color)) else p.pieces[to]
  }

  function NewMove(p: Position, from: Square, to: Square): Move {
    Move(from, to, p.pieces[from], Captured(p, to), NoPromotion, Plain)
  }

  function NewCastle(p: Position, from: Square, to: Square): Move {
    Move(from, to, p.pieces[from], Captured(p, to), NoPromotion, Castle)
  }

  function NewEnpassant(p: Position, from: Square, to: Square): Move {
    Move(from, to, p.pieces[from], Captured(p, to), NoPromotion, Enpassant)
  }

  function NewPawnJump(p: Position, from: Square, to: Square): Move {
    Move(from, to, p.pieces[from], Captured(p, to), NoPromotion, PawnJump)
  }

  /** `m.promote(kind)`. */
  function Promote(m: Move, kind: Kind): Move {
    if m.Move? then m.(promo := PromoteTo(kind)) else m
  }

  /** A pawn whose target lies on the first or the last rank promotes. */
  predicate IsPawnPromotion(piece: Piece, target: Square) {
    piece.Piece? && piece.kind == Pawn && !(H1 < target < A8)
  }
}
