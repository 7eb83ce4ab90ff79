/**
 * The pure part of move generation: how a pawn move is tagged, the four
 * promotion moves, what each generator emits for one (square, target) pair,
 * and the whole sequences the generators produce, in their traversal order
 * (piece kind, then square, then target, lowest square first).
 */
module Emission {
  import opened Board
  import opened Moves

  /** Two squares on the same rank and on neighbouring files. */
  predicate Adjacent(s: Square, t: Square) {
    Row(s) == Row(t) && (Col(s) == Col(t) + 1 || Col(s) + 1 == Col(t))
  }

  lemma AdjacentSquares(s: Square, t: Square)
    ensures Adjacent(s, t) <==> (s == t + 1 && Col(t) != 7) || (s == t - 1 && Col(t) != 0)
  {
  }

  /**
   * `isEnpassant`: whether an opposing pawn stands beside `target`. Only the
   * file to the right is looked at on file 0 and only the file to the left
   * on file 7, which together mean "an enemy pawn on a neighbouring square
   * of the same rank".
   */
  function IsEnpassant(p: Position, target: Square, color: Color): (b: bool)
    ensures b <==> exists s :: s in p.Outposts(Piece(Pawn, Other(color))) && Adjacent(s, target)
  {
    var pawns := p.Outposts(Piece(Pawn, Other(color)));
    var b :=
      if Col(target) == 0 then target + 1 in pawns
      else if Col(target) == 7 then target - 1 in pawns
      else target + 1 in pawns || target - 1 in pawns;
    NeighbourWitness(pawns, target, b);
    b
  }

  /** The edge-file checks of `IsEnpassant` against the adjacency relation. */
  lemma NeighbourWitness(pawns: Bitboard, target: Square, b: bool)
    requires b == if Col(target) == 0 then target + 1 in pawns
                  else if Col(target) == 7 then target - 1 in pawns
                  else target + 1 in pawns || target - 1 in pawns
    ensures b <==> exists s :: s in pawns && Adjacent(s, target)
  {
    forall s | s in pawns {
      AdjacentSquares(s, target);
    }
    if b {
      if Col(target) != 7 && target + 1 in pawns {
        AdjacentSquares(target + 1, target);
      } else {
        AdjacentSquares(target - 1, target);
      }
    }
  }

  /**
   * `pawnMove`: the plain move re-tagged. It is tagged iff it advances from
   * the second to the fourth relative rank, tagged en passant iff an enemy
   * pawn then stands beside the target, and never tagged a castle.
   */
  function PawnMove(p: Position, square: Square, target: Square): (m: Move)
    ensures m.Move? && m.(special := Plain) == NewMove(p, square, target)
    ensures m.special != Plain <==> RelRow(square, p.color) == 1 && RelRow(target, p.color) == 3
    ensures m.special == Enpassant <==>
              && RelRow(square, p.color) == 1 && RelRow(target, p.color) == 3
              && exists s :: s in p.Outposts(Piece(Pawn, Other(p.color))) && Adjacent(s, target)
    ensures m.special != Castle
  {
    if RelRow(square, p.color) == 1 && RelRow(target, p.color) == 3 then
      if IsEnpassant(p, target, p.color) then NewEnpassant(p, square, target)
      else NewPawnJump(p, square, target)
    else NewMove(p, square, target)
  }

  /**
   * `pawnPromotion`: the plain move four times, promoted to queen, rook,
   * bishop and knight, in that order.
   */
  function PawnPromotion(p: Position, square: Square, target: Square): (r: (Move, Move, Move, Move))
    ensures var ms := [r.0, r.1, r.2, r.3];
            forall i :: 0 <= i < 4 ==>
              ms[i] == NewMove(p, square, target).(promo := PromoteTo(PROMOTIONS[i])) && ms[i].IsPromo()
  {
    var m := NewMove(p, square, target);
    (Promote(m, Queen), Promote(m, Rook), Promote(m, Bishop), Promote(m, Knight))
  }

  /** The `for _, name := range {QUEEN, ROOK, BISHOP, KNIGHT}` expansion of one move. */
  function Promotions(m: Move): seq<Move> {
    [Promote(m, Queen), Promote(m, Rook), Promote(m, Bishop), Promote(m, Knight)]
  }

  /** Which generator's loop body runs for each popped target. */
  datatype Emitter =
    | PawnPush                  // pawnMoves
    | Step                      // kbrqMoves
    | KingStep(home: Square)    // kingMoves, with the king's home square
    | AnyMove(piece: Piece)     // Position.possibleMoves
    | CaptureOnly(piece: Piece) // possibleCaptures (both versions)

  /** The moves one generator emits for the target `target` of the piece on `square`. */
  function Emit(p: Position, e: Emitter, square: Square, target: Square): seq<Move> {
    match e
    case PawnPush =>
      if H1 < target < A8 then [PawnMove(p, square, target)]
      else
        var (m1, m2, m3, m4) := PawnPromotion(p, square, target);
        [m1, m2, m3, m4]
    case Step => [NewMove(p, square, target)]
    case KingStep(home) =>
      if square == home && Abs(square - target) == 2 then [NewCastle(p, square, target)]
      else [NewMove(p, square, target)]
    case AnyMove(piece) =>
      if !IsPawnPromotion(piece, target) then [NewMove(p, square, target)]
      else Promotions(NewMove(p, square, target))
    case CaptureOnly(piece) =>
      if p.pieces[target] != Empty then
        if !IsPawnPromotion(piece, target) then [NewMove(p, square, target)]
        else Promotions(NewMove(p, square, target))
      else if p.enpassant != 0 && target == p.enpassant then [NewMove(p, square, target)]
      else []
  }

  /** Everything a generator emits for the targets `ts` of the piece on `square`, in order. */
  function TargetMoves(p: Position, e: Emitter, square: Square, ts: seq<Square>): seq<Move> {
    if ts == [] then [] else Emit(p, e, square, ts[0]) + TargetMoves(p, e, square, ts[1..])
  }

  /** Everything a generator emits for the pieces on `squares`, each over all its targets. */
  function SquareMoves(p: Position, e: Emitter, squares: seq<Square>): seq<Move> {
    if squares == [] then []
    else TargetMoves(p, e, squares[0], Squares(p.targets[squares[0]])) + SquareMoves(p, e, squares[1..])
  }

  /** Popping the lowest target splits off what is emitted for it. */
  lemma PopTarget(p: Position, e: Emitter, square: Square, targets: Bitboard)
    requires targets != {}
    ensures TargetMoves(p, e, square, Squares(targets)) ==
            Emit(p, e, square, First(targets)) + TargetMoves(p, e, square, Squares(targets - {First(targets)}))
  {
  }

  /** Popping the lowest square splits off what is emitted for its piece. */
  lemma PopSquare(p: Position, e: Emitter, squares: Bitboard)
    requires squares != {}
    ensures SquareMoves(p, e, Squares(squares)) ==
            TargetMoves(p, e, First(squares), Squares(p.targets[First(squares)]))
            + SquareMoves(p, e, Squares(squares - {First(squares)}))
  {
  }

  /** The kinds `kbrqMoves` visits, in its order. */
  const KBRQ: seq<Kind> := [Knight, Bishop, Rook, Queen]

  function KindsMoves(p: Position, color: Color, kinds: seq<Kind>): seq<Move> {
    if kinds == [] then []
    else SquareMoves(p, Step, Squares(p.Outposts(Piece(kinds[0], color)))) + KindsMoves(p, color, kinds[1..])
  }

  function PawnMoves(p: Position, color: Color): seq<Move> {
    SquareMoves(p, PawnPush, Squares(p.Outposts(Piece(Pawn, color))))
  }

  function KbrqMoves(p: Position, color: Color): seq<Move> {
    KindsMoves(p, color, KBRQ)
  }

  /** Only the lowest square of the king bitboard is visited (there is at most one king). */
  function KingMoves(p: Position, color: Color, homeKing: ByColor<Square>): seq<Move> {
    var king := p.Outposts(Piece(King, color));
    if king == {} then []
    else TargetMoves(p, KingStep(homeKing.Of(color)), First(king), Squares(p.targets[First(king)]))
  }

  /** What `GenerateMoves` appends: pawns, then knights to queens, then the king. */
  function GeneratedMoves(p: Position, homeKing: ByColor<Square>): seq<Move> {
    PawnMoves(p, p.color) + KbrqMoves(p, p.color) + KingMoves(p, p.color, homeKing)
  }

  predicate OwnPiece(p: Position, square: Square) {
    p.pieces[square] != Empty && p.pieces[square].color == p.color
  }

  /** `Position.possibleMoves(square, piece)`. */
  function PieceMoves(p: Position, square: Square, piece: Piece): seq<Move> {
    TargetMoves(p, AnyMove(piece), square, Squares(p.targets[square]))
  }

  /** `possibleCaptures(square, piece)`. */
  function PieceCaptures(p: Position, square: Square, piece: Piece): seq<Move> {
    TargetMoves(p, CaptureOnly(piece), square, Squares(p.targets[square]))
  }

  /** The candidates of the side to move on squares `from`..63, in board order (before ordering). */
  function MovesFrom(p: Position, from: nat): seq<Move>
    requires from <= 64
    decreases 64 - from
  {
    if from == 64 then []
    else (if OwnPiece(p, from) then PieceMoves(p, from, p.pieces[from]) else []) + MovesFrom(p, from + 1)
  }

  /** The capture candidates of the side to move on squares `from`..63, in board order. */
  function CapturesFrom(p: Position, from: nat): seq<Move>
    requires from <= 64
    decreases 64 - from
  {
    if from == 64 then []
    else (if OwnPiece(p, from) then PieceCaptures(p, from, p.pieces[from]) else []) + CapturesFrom(p, from + 1)
  }

  /** One step of the board scan: an own piece contributes its captures, any other square nothing. */
  lemma CapturesFromStep(p: Position, from: Square)
    ensures OwnPiece(p, from) ==> CapturesFrom(p, from) == PieceCaptures(p, from, p.pieces[from]) + CapturesFrom(p, from + 1)
    ensures !OwnPiece(p, from) ==> CapturesFrom(p, from) == CapturesFrom(p, from + 1)
  {
    assert [] + CapturesFrom(p, from + 1) == CapturesFrom(p, from + 1);
  }

  /** One step of the board scan: an own piece contributes its candidates, any other square nothing. */
  lemma MovesFromStep(p: Position, from: Square)
    ensures OwnPiece(p, from) ==> MovesFrom(p, from) == PieceMoves(p, from, p.pieces[from]) + MovesFrom(p, from + 1)
    ensures !OwnPiece(p, from) ==> MovesFrom(p, from) == MovesFrom(p, from + 1)
  {
    assert [] + MovesFrom(p, from + 1) == MovesFrom(p, from + 1);
  }

  // ---------------------------------------------------------------------
  // Properties of the emission

  /** A pawn push emits one move, or, onto the first or last rank, the four promotions in order. */
  lemma PawnEmission(p: Position, square: Square, target: Square)
    ensures var ms := Emit(p, PawnPush, square, target);
            if H1 < target < A8 then ms == [PawnMove(p, square, target)]
            else |ms| == 4 && forall i :: 0 <= i < 4 ==> ms[i] == Promote(NewMove(p, square, target), PROMOTIONS[i])
  {
  }

  lemma {:induction false} TargetMovesMember(p: Position, e: Emitter, square: Square, ts: seq<Square>, m: Move)
    ensures m in TargetMoves(p, e, square, ts) <==> exists i :: 0 <= i < |ts| && m in Emit(p, e, square, ts[i])
  {
    if ts != [] {
      TargetMovesMember(p, e, square, ts[1..], m);
      if m in Emit(p, e, square, ts[0]) {
      } else if m in TargetMoves(p, e, square, ts[1..]) {
        var i :| 0 <= i < |ts[1..]| && m in Emit(p, e, square, ts[1..][i]);
        assert m in Emit(p, e, square, ts[i + 1]);
      } else {
        forall i | 0 <= i < |ts| ensures m !in Emit(p, e, square, ts[i]) {
          if i > 0 {
            assert ts[i] == ts[1..][i - 1];
          }
        }
      }
    }
  }

  /** kbrqMoves and kingMoves emit exactly one move per target, in target order. */
  lemma {:induction false} OneMovePerTarget(p: Position, e: Emitter, square: Square, ts: seq<Square>)
    requires e.Step? || e.KingStep?
    ensures var ms := TargetMoves(p, e, square, ts);
            |ms| == |ts| && forall i :: 0 <= i < |ts| ==> [ms[i]] == Emit(p, e, square, ts[i])
  {
    if ts != [] {
      OneMovePerTarget(p, e, square, ts[1..]);
      var ms := TargetMoves(p, e, square, ts);
      forall i | 0 <= i < |ts| ensures [ms[i]] == Emit(p, e, square, ts[i]) {
        if i > 0 {
          assert ms[i] == TargetMoves(p, e, square, ts[1..])[i - 1];
          assert ts[i] == ts[1..][i - 1];
        }
      }
    }
  }

  /** The number of targets of the pieces on `squares`. */
  function TargetCount(p: Position, squares: seq<Square>): nat {
    if squares == [] then 0 else |p.targets[squares[0]]| + TargetCount(p, squares[1..])
  }

  lemma {:induction false} StepCount(p: Position, squares: seq<Square>)
    ensures |SquareMoves(p, Step, squares)| == TargetCount(p, squares)
  {
    if squares != [] {
      OneMovePerTarget(p, Step, squares[0], Squares(p.targets[squares[0]]));
      StepCount(p, squares[1..]);
    }
  }

  /** The number of promotion targets among `ts`. */
  function PromotionTargets(ts: seq<Square>): nat {
    if ts == [] then 0 else (if H1 < ts[0] < A8 then 0 else 1) + PromotionTargets(ts[1..])
  }

  /** A pawn emits one move per target plus three more for every promotion target. */
  lemma {:induction false} PawnCount(p: Position, square: Square, ts: seq<Square>)
    ensures |TargetMoves(p, PawnPush, square, ts)| == |ts| + 3 * PromotionTargets(ts)
  {
    if ts != [] {
      PawnCount(p, square, ts[1..]);
    }
  }

  /** A king move is a castle exactly when the king leaves its home square by two files. */
  lemma KingMovesCastle(p: Position, color: Color, homeKing: ByColor<Square>)
    ensures var ms := KingMoves(p, color, homeKing);
            var king := p.Outposts(Piece(King, color));
            && |ms| == (if king == {} then 0 else |p.targets[First(king)]|)
            && forall i :: 0 <= i < |ms| ==>
                 && ms[i].Move?
                 && ms[i].from == First(king)
                 && ms[i].to in p.targets[First(king)]
                 && (ms[i].special == Castle <==> ms[i].from == homeKing.Of(color) && Abs(ms[i].from - ms[i].to) == 2)
                 && (ms[i].special != Castle ==> ms[i] == NewMove(p, ms[i].from, ms[i].to))
  {
    var king := p.Outposts(Piece(King, color));
    if king != {} {
      var sq := First(king);
      var ts := Squares(p.targets[sq]);
      var e := KingStep(homeKing.Of(color));
      OneMovePerTarget(p, e, sq, ts);
      var ms := TargetMoves(p, e, sq, ts);
      forall i | 0 <= i < |ms|
        ensures ms[i].Move? && ms[i].from == sq && ms[i].to == ts[i]
        ensures ms[i].special == Castle <==> sq == homeKing.Of(color) && Abs(sq as int - ts[i]) == 2
        ensures ms[i].special != Castle ==> ms[i] == NewMove(p, sq, ts[i])
      {
        assert [ms[i]] == Emit(p, e, sq, ts[i]);
      }
    }
  }

  /** Every emitted move goes from the popped square to the popped target. */
  lemma EmitFromTo(p: Position, e: Emitter, square: Square, target: Square)
    ensures forall m :: m in Emit(p, e, square, target) ==> m.Move? && m.from == square && m.to == target
  {
  }

  lemma CaptureEmit(p: Position, piece: Piece, square: Square, target: Square)
    ensures Emit(p, CaptureOnly(piece), square, target) != [] <==>
            p.pieces[target] != Empty || (p.enpassant != 0 && target == p.enpassant)
  {
  }

  /**
   * possibleCaptures emits a move for a target only if the target is occupied,
   * or is empty and is the (non-zero) en-passant square; every occupied target
   * yields at least one move.
   */
  lemma CaptureTargets(p: Position, square: Square, piece: Piece)
    ensures forall m :: m in PieceCaptures(p, square, piece) ==>
              && m.Move? && m.from == square && m.to in p.targets[square]
              && (p.pieces[m.to] != Empty || (p.enpassant != 0 && m.to == p.enpassant))
    ensures forall t :: t in p.targets[square] && p.pieces[t] != Empty ==>
              exists m :: m in PieceCaptures(p, square, piece) && m.to == t
  {
    var ts := Squares(p.targets[square]);
    var e := CaptureOnly(piece);
    forall m | m in PieceCaptures(p, square, piece)
      ensures && m.Move? && m.from == square && m.to in p.targets[square]
              && (p.pieces[m.to] != Empty || (p.enpassant != 0 && m.to == p.enpassant))
    {
      TargetMovesMember(p, e, square, ts, m);
      var i :| 0 <= i < |ts| && m in Emit(p, e, square, ts[i]);
      EmitFromTo(p, e, square, ts[i]);
      CaptureEmit(p, piece, square, ts[i]);
    }
    forall t | t in p.targets[square] && p.pieces[t] != Empty
      ensures exists m :: m in PieceCaptures(p, square, piece) && m.to == t
    {
      var i :| 0 <= i < |ts| && ts[i] == t;
      CaptureEmit(p, piece, square, t);
      EmitFromTo(p, e, square, t);
      var m := Emit(p, e, square, t)[0];
      TargetMovesMember(p, e, square, ts, m);
    }
  }

  /** Captures-only generation emits captures only, the en-passant capture of the empty square included. */
  lemma CapturesAreCaptures(p: Position, square: Square, piece: Piece)
    ensures forall m :: m in PieceCaptures(p, square, piece) ==> m.IsCapture()
  {
    var ts := Squares(p.targets[square]);
    var e := CaptureOnly(piece);
    forall m | m in PieceCaptures(p, square, piece) ensures m.IsCapture() {
      TargetMovesMember(p, e, square, ts, m);
      var i :| 0 <= i < |ts| && m in Emit(p, e, square, ts[i]);
      CaptureEmitCaptures(p, piece, square, ts[i]);
    }
  }

  /** For one target, captures-only generation emits captures only. */
  lemma CaptureEmitCaptures(p: Position, piece: Piece, square: Square, target: Square)
    ensures forall m :: m in Emit(p, CaptureOnly(piece), square, target) ==> m.IsCapture()
  {
  }

  /** Where the target is occupied or the en-passant square off the back ranks, both generators emit alike. */
  lemma CaptureEmitIsMoveEmit(p: Position, piece: Piece, square: Square, target: Square)
    requires p.enpassant == 0 || H1 < p.enpassant < A8
    ensures forall m :: m in Emit(p, CaptureOnly(piece), square, target) ==> m in Emit(p, AnyMove(piece), square, target)
  {
  }

  /**
   * Every capture candidate of a piece is also one of its candidates in the
   * full generation, provided the en-passant square is not on a back rank.
   */
  lemma CapturesAreMoves(p: Position, square: Square, piece: Piece)
    requires p.enpassant == 0 || H1 < p.enpassant < A8
    ensures forall m :: m in PieceCaptures(p, square, piece) ==> m in PieceMoves(p, square, piece)
  {
    var ts := Squares(p.targets[square]);
    forall m | m in PieceCaptures(p, square, piece) ensures m in PieceMoves(p, square, piece) {
      TargetMovesMember(p, CaptureOnly(piece), square, ts, m);
      var i :| 0 <= i < |ts| && m in Emit(p, CaptureOnly(piece), square, ts[i]);
      CaptureEmitIsMoveEmit(p, piece, square, ts[i]);
      TargetMovesMember(p, AnyMove(piece), square, ts, m);
    }
  }

  /** Captures-only generation yields a subset of the full generation. */
  lemma {:induction false} CapturesFromAreMovesFrom(p: Position, from: nat)
    requires from <= 64
    requires p.enpassant == 0 || H1 < p.enpassant < A8
    ensures forall m :: m in CapturesFrom(p, from) ==> m in MovesFrom(p, from)
    decreases 64 - from
  {
    if from < 64 {
      CapturesFromAreMovesFrom(p, from + 1);
      CapturesAreMoves(p, from, p.pieces[from]);
    }
  }

  /** The board scan of `Captures` yields captures only. */
  lemma {:induction false} CapturesFromAreCaptures(p: Position, from: nat)
    requires from <= 64
    ensures forall m :: m in CapturesFrom(p, from) ==> m.IsCapture()
    decreases 64 - from
  {
    if from < 64 {
      CapturesFromAreCaptures(p, from + 1);
      CapturesAreCaptures(p, from, p.pieces[from]);
    }
  }
}
