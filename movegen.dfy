/**
 * The per-ply move list: a fixed buffer of 256 moves with a head cursor (next
 * move to hand out) and a tail cursor (next free slot). Generation appends
 * at the tail; `NextMove` drains from the head. One list exists per search
 * ply, owned by a `MoveLists` object.
 *
 * A generator that would write past the buffer makes the engine panic; here
 * the room it needs is a precondition, stated as the length of the sequence
 * the generator is specified to append.
 */
module MoveGen {
  import opened Board
  import opened Moves
  import opened Emission

  const CAPACITY := 256

  class MoveList {
    var position: Position
    const moves: array<Move>
    var ply: int
    var head: int
    var tail: int

    ghost predicate Valid()
      reads this
    {
      moves.Length == CAPACITY && 0 <= head <= tail <= CAPACITY
    }

    /** The moves generated and not yet handed out, in the order `NextMove` returns them. */
    ghost function Pending(): seq<Move>
      reads this, moves
      requires Valid()
    {
      moves[head..tail]
    }

    /** The slot of `ply` bound to `p` with both cursors at 0 and every move `NoMove`. */
    ghost predicate Cleared(p: Position, ply: int)
      reads this, moves
    {
      && position == p && this.ply == ply && head == 0 && tail == 0
      && forall i :: 0 <= i < moves.Length ==> moves[i] == NoMove
    }

    /** A zeroed slot bound to `p`, as the engine's zero-initialised list array holds. */
    constructor (p: Position, ply: int)
      ensures Valid() && fresh(moves)
      ensures position == p && this.ply == ply && head == 0 && tail == 0
      ensures forall i :: 0 <= i < CAPACITY ==> moves[i] == NoMove
    {
      position := p;
      moves := new Move[CAPACITY](_ => NoMove);
      this.ply := ply;
      head, tail := 0, 0;
    }

    /** Hands out the move at the head, or `NoMove` once the list is drained. */
    method NextMove() returns (move: Move)
      requires Valid()
      modifies this`head
      ensures Valid()
      ensures old(head) == old(tail) ==> move == NoMove && head == old(head)
      ensures old(head) < old(tail) ==>
                && move == moves[old(head)] && head == old(head) + 1
                && old(Pending()) == [move] + Pending()
    {
      if head == tail {
        return NoMove;
      }
      move := moves[head];
      head := head + 1;
    }

    /**
     * `ml.moves[ml.tail].move = m; ml.tail++`: writes `m` into the first free
     * slot. The ghost arguments carry the bookkeeping of the callers' loops:
     * what the whole generation appends, and what remains after `m`.
     */
    method Append(m: Move, ghost all: seq<Move>, ghost rest: seq<Move>)
      requires Valid() && |all| <= CAPACITY
      requires all == moves[..tail] + ([m] + rest)
      modifies this`tail, moves
      ensures Valid() && tail == old(tail) + 1
      ensures all == moves[..tail] + rest
      ensures forall i :: tail <= i < CAPACITY ==> moves[i] == old(moves[i])
    {
      ghost var done := moves[..tail];
      AppendAssoc(done, [m], rest);
      moves[tail] := m;
      tail := tail + 1;
      assert moves[..tail] == done + [m];
    }

    /** `GenerateMoves`: all pseudo-legal moves of the side to move, appended at the tail. */
    method GenerateMoves(homeKing: ByColor<Square>)
      requires Valid()
      requires tail + |GeneratedMoves(position, homeKing)| <= CAPACITY
      modifies this`tail, moves
      ensures Valid()
      ensures moves[..tail] == old(moves[..tail]) + GeneratedMoves(position, homeKing)
      ensures forall i :: tail <= i < CAPACITY ==> moves[i] == old(moves[i])
    {
      var color := position.color;
      ghost var before := moves[..tail];
      ghost var pawns, kbrq, king :=
        Emission.PawnMoves(position, color), Emission.KbrqMoves(position, color), Emission.KingMoves(position, color, homeKing);
      PawnMoves(color);
      KbrqMoves(color);
      AppendAssoc(before, pawns, kbrq);
      KingMoves(color, homeKing);
      AppendAssoc(before, pawns + kbrq, king);
    }

    /** `pawnMoves`: every target of every pawn, expanded into four moves on a back rank. */
    method PawnMoves(color: Color)
      requires Valid()
      requires tail + |Emission.PawnMoves(position, color)| <= CAPACITY
      modifies this`tail, moves
      ensures Valid()
      ensures moves[..tail] == old(moves[..tail]) + Emission.PawnMoves(position, color)
      ensures forall i :: tail <= i < CAPACITY ==> moves[i] == old(moves[i])
    {
      ghost var all := old(moves[..tail]) + Emission.PawnMoves(position, color);
      var pawns := position.Outposts(Piece(Pawn, color));
      while pawns != {}
        invariant Valid() && |all| <= CAPACITY
        invariant all == moves[..tail] + SquareMoves(position, PawnPush, Squares(pawns))
        invariant forall i :: tail <= i < CAPACITY ==> moves[i] == old(moves[i])
        decreases |pawns|
      {
        var square := First(pawns);
        PopSquare(position, PawnPush, pawns);
        pawns := pawns - {square};
        EmitTargets(PawnPush, square, all, SquareMoves(position, PawnPush, Squares(pawns)));
      }
    }

    /** `kbrqMoves`: one move per target of every knight, bishop, rook and queen, in that kind order. */
    method KbrqMoves(color: Color)
      requires Valid()
      requires tail + |Emission.KbrqMoves(position, color)| <= CAPACITY
      modifies this`tail, moves
      ensures Valid()
      ensures moves[..tail] == old(moves[..tail]) + Emission.KbrqMoves(position, color)
      ensures forall i :: tail <= i < CAPACITY ==> moves[i] == old(moves[i])
    {
      ghost var all := old(moves[..tail]) + Emission.KbrqMoves(position, color);
      for k := 0 to |KBRQ|
        invariant Valid() && |all| <= CAPACITY
        invariant all == moves[..tail] + KindsMoves(position, color, KBRQ[k..])
        invariant forall i :: tail <= i < CAPACITY ==> moves[i] == old(moves[i])
      {
        assert KBRQ[k..][1..] == KBRQ[k + 1..];
        EmitKind(KBRQ[k], color, all, KindsMoves(position, color, KBRQ[k + 1..]));
      }
    }

    /** The inner loop of `kbrqMoves`: one move per target of every piece of one kind, in board order. */
    method EmitKind(kind: Kind, color: Color, ghost all: seq<Move>, ghost kinds: seq<Move>)
      requires Valid() && |all| <= CAPACITY
      requires all == moves[..tail] + (SquareMoves(position, Step, Squares(position.Outposts(Piece(kind, color)))) + kinds)
      modifies this`tail, moves
      ensures Valid()
      ensures all == moves[..tail] + kinds
      ensures forall i :: tail <= i < CAPACITY ==> moves[i] == old(moves[i])
    {
      var outposts := position.Outposts(Piece(kind, color));
      while outposts != {}
        invariant Valid() && |all| <= CAPACITY
        invariant all == moves[..tail] + (SquareMoves(position, Step, Squares(outposts)) + kinds)
        invariant forall i :: tail <= i < CAPACITY ==> moves[i] == old(moves[i])
        decreases |outposts|
      {
        var square := First(outposts);
        PopSquare(position, Step, outposts);
        outposts := outposts - {square};
        AppendAssoc(TargetMoves(position, Step, square, Squares(position.targets[square])),
                    SquareMoves(position, Step, Squares(outposts)), kinds);
        EmitTargets(Step, square, all, SquareMoves(position, Step, Squares(outposts)) + kinds);
      }
      assert SquareMoves(position, Step, Squares(outposts)) + kinds == kinds;
    }

    /** `kingMoves`: one move per target of the king, a castle when it leaves home by two files. */
    method KingMoves(color: Color, homeKing: ByColor<Square>)
      requires Valid()
      requires tail + |Emission.KingMoves(position, color, homeKing)| <= CAPACITY
      modifies this`tail, moves
      ensures Valid()
      ensures moves[..tail] == old(moves[..tail]) + Emission.KingMoves(position, color, homeKing)
      ensures forall i :: tail <= i < CAPACITY ==> moves[i] == old(moves[i])
    {
      ghost var all := old(moves[..tail]) + Emission.KingMoves(position, color, homeKing);
      var king := position.Outposts(Piece(King, color));
      if king != {} {
        var square := First(king);
        king := king - {square};
        assert all == moves[..tail] + (Emission.KingMoves(position, color, homeKing) + []);
        EmitTargets(KingStep(homeKing.Of(color)), square, all, []);
      } else {
        assert moves[..tail] + [] == moves[..tail];
      }
    }

    /**
     * The `for targets != 0 { target := targets.pop(); ... }` loop every
     * generator runs over the targets of the piece on `square`, with the
     * generator's body selected by `e`.
     */
    method EmitTargets(e: Emitter, square: Square, ghost all: seq<Move>, ghost rest: seq<Move>)
      requires Valid() && |all| <= CAPACITY && !e.AnyMove?
      requires all == moves[..tail] + (TargetMoves(position, e, square, Squares(position.targets[square])) + rest)
      modifies this`tail, moves
      ensures Valid()
      ensures all == moves[..tail] + rest
      ensures forall i :: tail <= i < CAPACITY ==> moves[i] == old(moves[i])
    {
      var targets: Bitboard := position.targets[square];
      while targets != {}
        invariant Valid() && |all| <= CAPACITY
        invariant all == moves[..tail] + (TargetMoves(position, e, square, Squares(targets)) + rest)
        invariant forall i :: tail <= i < CAPACITY ==> moves[i] == old(moves[i])
        decreases |targets|
      {
        var target := First(targets);
        PopTarget(position, e, square, targets);
        targets := targets - {target};
        AppendAssoc(Emit(position, e, square, target), TargetMoves(position, e, square, Squares(targets)), rest);
        EmitTarget(e, square, target, all, TargetMoves(position, e, square, Squares(targets)) + rest);
      }
      assert TargetMoves(position, e, square, Squares(targets)) + rest == rest;
    }

    /**
     * The loop bodies of the generators for one popped `target`: `pawnMoves`
     * (a pawn move, or four promotions on a back rank), `kbrqMoves` (a plain
     * move), `kingMoves` (a castle or a plain move) and `possibleCaptures` (a
     * capture, four promoting captures, an en-passant capture or nothing).
     * `Position.possibleMoves` is no `MoveList` generator.
     */
    method EmitTarget(e: Emitter, square: Square, target: Square, ghost all: seq<Move>, ghost rest: seq<Move>)
      requires Valid() && |all| <= CAPACITY && !e.AnyMove?
      requires all == moves[..tail] + (Emit(position, e, square, target) + rest)
      modifies this`tail, moves
      ensures Valid()
      ensures all == moves[..tail] + rest
      ensures forall i :: tail <= i < CAPACITY ==> moves[i] == old(moves[i])
    {
      match e
      case PawnPush =>
        if H1 < target < A8 {
          Append(PawnMove(position, square, target), all, rest);
        } else { // Promotion.
          var (m1, m2, m3, m4) := PawnPromotion(position, square, target);
          AppendFour(m1, m2, m3, m4, all, rest);
        }
      case Step =>
        Append(NewMove(position, square, target), all, rest);
      case KingStep(home) =>
        var move: Move;
        if square == home && Abs(square as int - target) == 2 {
          move := NewCastle(position, square, target);
        } else {
          move := NewMove(position, square, target);
        }
        Append(move, all, rest);
      case CaptureOnly(piece) =>
        var capture := position.pieces[target];
        if capture != Empty {
          if !IsPawnPromotion(piece, target) {
            Append(NewMove(position, square, target), all, rest);
          } else {
            AppendPromotions(NewMove(position, square, target), all, rest);
          }
        } else if position.enpassant != 0 && target == position.enpassant {
          Append(NewMove(position, square, target), all, rest);
        } else {
          assert [] + rest == rest;
        }
    }

    /** The four appends of `pawnMoves`' promotion branch. */
    method AppendFour(m1: Move, m2: Move, m3: Move, m4: Move, ghost all: seq<Move>, ghost rest: seq<Move>)
      requires Valid() && |all| <= CAPACITY
      requires all == moves[..tail] + ([m1, m2, m3, m4] + rest)
      modifies this`tail, moves
      ensures Valid()
      ensures all == moves[..tail] + rest
      ensures forall i :: tail <= i < CAPACITY ==> moves[i] == old(moves[i])
    {
      Unfold4(m1, m2, m3, m4, rest);
      Append(m1, all, [m2, m3, m4] + rest);
      Append(m2, all, [m3, m4] + rest);
      Append(m3, all, [m4] + rest);
      Append(m4, all, rest);
    }

    /** `for _, name := range []int{QUEEN, ROOK, BISHOP, KNIGHT}`: `m` promoted to each kind in turn. */
    method AppendPromotions(m: Move, ghost all: seq<Move>, ghost rest: seq<Move>)
      requires Valid() && |all| <= CAPACITY
      requires all == moves[..tail] + (Promotions(m) + rest)
      modifies this`tail, moves
      ensures Valid()
      ensures all == moves[..tail] + rest
      ensures forall i :: tail <= i < CAPACITY ==> moves[i] == old(moves[i])
    {
      ghost var promos := Promotions(m);
      for k := 0 to |PROMOTIONS|
        invariant Valid() && |all| <= CAPACITY
        invariant all == moves[..tail] + (promos[k..] + rest)
        invariant forall i :: tail <= i < CAPACITY ==> moves[i] == old(moves[i])
      {
        assert promos[k..] == [promos[k]] + promos[k + 1..];
        AppendAssoc([promos[k]], promos[k + 1..], rest);
        Append(Promote(m, PROMOTIONS[k]), all, promos[k + 1..] + rest);
      }
      assert promos[|PROMOTIONS|..] + rest == rest;
    }

    /** `GenerateCaptures`: the capture candidates of every piece of the side to move, board order. */
    method GenerateCaptures()
      requires Valid()
      requires tail + |CapturesFrom(position, 0)| <= CAPACITY
      modifies this`tail, moves
      ensures Valid()
      ensures moves[..tail] == old(moves[..tail]) + CapturesFrom(position, 0)
      ensures forall i :: tail <= i < CAPACITY ==> moves[i] == old(moves[i])
    {
      ScanCaptures(0);
    }

    /** The board scan of `GenerateCaptures` over the squares from `start` up to h8. */
    method ScanCaptures(start: nat)
      requires Valid() && start <= 64
      requires tail + |CapturesFrom(position, start)| <= CAPACITY
      modifies this`tail, moves
      ensures Valid()
      ensures moves[..tail] == old(moves[..tail]) + CapturesFrom(position, start)
      ensures forall i :: tail <= i < CAPACITY ==> moves[i] == old(moves[i])
    {
      ghost var all := old(moves[..tail]) + CapturesFrom(position, start);
      for square := start to 64
        invariant Valid() && |all| <= CAPACITY
        invariant all == moves[..tail] + CapturesFrom(position, square)
        invariant forall i :: tail <= i < CAPACITY ==> moves[i] == old(moves[i])
      {
        ScanSquare(square, all);
      }
      assert moves[..tail] + CapturesFrom(position, 64) == moves[..tail];
    }

    /** The body of `GenerateCaptures`' board scan: the captures of an own piece on `square`. */
    method ScanSquare(square: Square, ghost all: seq<Move>)
      requires Valid() && |all| <= CAPACITY
      requires all == moves[..tail] + CapturesFrom(position, square)
      modifies this`tail, moves
      ensures Valid()
      ensures all == moves[..tail] + CapturesFrom(position, square + 1)
      ensures forall i :: tail <= i < CAPACITY ==> moves[i] == old(moves[i])
    {
      var piece := position.pieces[square];
      CapturesFromStep(position, square);
      if piece != Empty && piece.color == position.color {
        PossibleCaptures(square, piece, all, CapturesFrom(position, square + 1));
      }
    }

    /**
     * `possibleCaptures`: a move per occupied target (four on a promotion),
     * and one for an empty target that is the en-passant square.
     */
    method PossibleCaptures(square: Square, piece: Piece, ghost all: seq<Move>, ghost rest: seq<Move>)
      requires Valid() && |all| <= CAPACITY
      requires all == moves[..tail] + (PieceCaptures(position, square, piece) + rest)
      modifies this`tail, moves
      ensures Valid()
      ensures all == moves[..tail] + rest
      ensures forall i :: tail <= i < CAPACITY ==> moves[i] == old(moves[i])
    {
      EmitTargets(CaptureOnly(piece), square, all, rest);
    }
  }

  /** The per-ply move lists, one slot per search depth. */
  class MoveLists {
    const slots: seq<MoveList>

    ghost predicate Valid()
      reads this, slots
    {
      && (forall i :: 0 <= i < |slots| ==> slots[i].Valid())
      && (forall i, j :: 0 <= i < j < |slots| ==> slots[i] != slots[j] && slots[i].moves != slots[j].moves)
    }

    /** One zeroed list per ply, each new and with its own buffer. */
    constructor (maxPly: nat, p: Position)
      ensures Valid() && |slots| == maxPly
      ensures forall k :: 0 <= k < maxPly ==> slots[k].Cleared(p, k) && fresh(slots[k]) && fresh(slots[k].moves)
    {
      var lists: seq<MoveList> := [];
      for i := 0 to maxPly
        invariant |lists| == i
        invariant forall k :: 0 <= k < i ==> lists[k].Valid() && fresh(lists[k]) && fresh(lists[k].moves)
        invariant forall k :: 0 <= k < i ==> lists[k].Cleared(p, k)
        invariant forall k, l :: 0 <= k < l < i ==> lists[k] != lists[l] && lists[k].moves != lists[l].moves
      {
        var list := new MoveList(p, i);
        lists := lists + [list];
      }
      slots := lists;
    }

    /**
     * `StartMoveGen`: binds the slot of `ply` to `p`, clears its buffer and
     * resets its cursors; no other slot changes.
     */
    method StartMoveGen(p: Position, ply: int) returns (ml: MoveList)
      requires Valid() && 0 <= ply < |slots|
      modifies slots[ply], slots[ply].moves
      ensures Valid() && ml == slots[ply]
      ensures ml.position == p && ml.ply == ply && ml.head == 0 && ml.tail == 0
      ensures forall i :: 0 <= i < CAPACITY ==> ml.moves[i] == NoMove
      ensures forall j :: 0 <= j < |slots| && j != ply ==> unchanged(slots[j]) && unchanged(slots[j].moves)
    {
      ml := slots[ply];
      ml.position := p;
      forall i | 0 <= i < ml.moves.Length {
        ml.moves[i] := NoMove;
      }
      ml.ply := ply;
      ml.head, ml.tail := 0, 0;
    }
  }
}
