/**
 * Board primitives the move generator and the king-safety evaluator rely on:
 * colours, pieces, squares, bitboards and the read-only position.
 *
 * Squares are numbered rank-major from A1 = 0 to H8 = 63 (rank 0 is nearest
 * to White). A bitboard is the set of its set squares; "pop" and "first" take
 * the lowest square, as the engine's bit scans do.
 */
module Board {

  datatype Color = White | Black

  /** The opposite colour (`color ^ 1` in the engine). */
  function Other(c: Color): Color {
    if c == White then Black else White
  }

  datatype Kind = Pawn | Knight | Bishop | Rook | Queen | King

  /** A piece, or the empty square (piece code 0). */
  datatype Piece = Empty | Piece(kind: Kind, color: Color)

  type Square = s: int | 0 <= s < 64

  type Bitboard = set<Square>

  const H1: Square := 7
  const H3: Square := 23
  const A8: Square := 56

  function Abs(x: int): int { if x < 0 then -x else x }

  function Row(s: Square): int { s / 8 }

  function Col(s: Square): int { s % 8 }

  /** The rank of `s` counted from `c`'s own back rank. */
  function RelRow(s: Square, c: Color): int {
    if c == White then Row(s) else 7 - Row(s)
  }

  /** The square mirrored across the horizontal axis (`square ^ 56`). */
  function Mirror(s: Square): (m: Square)
    ensures Row(m) == 7 - Row(s) && Col(m) == Col(s)
  {
    (7 - Row(s)) * 8 + Col(s)
  }

  /** Colour-relative square: mirrored for White, unchanged for Black. */
  function Flip(c: Color, s: Square): Square {
    if c == White then Mirror(s) else s
  }

  lemma MirrorInvolution(s: Square)
    ensures Mirror(Mirror(s)) == s
  {
  }

  /** Flipping by the opposite colour yields the rank seen from `c`'s side. */
  lemma FlipRow(c: Color, s: Square)
    ensures Row(Flip(Other(c), s)) == RelRow(s, c)
  {
  }

  /** The lowest square of `b` that is at least `i`. */
  function LowestFrom(b: Bitboard, i: nat): (s: Square)
    requires b != {} && forall t :: t in b ==> i <= t
    ensures s in b && forall t :: t in b ==> s <= t
    decreases 64 - i
  {
    if i in b then i else LowestFrom(b, i + 1)
  }

  /** The highest square of `b` that is at most `i`. */
  function HighestFrom(b: Bitboard, i: int): (s: Square)
    requires b != {} && forall t :: t in b ==> t <= i
    ensures s in b && forall t :: t in b ==> t <= s
    decreases i
  {
    if i in b then i else HighestFrom(b, i - 1)
  }

  /** `first()` and the square `pop()` removes: the lowest set square. */
  function First(b: Bitboard): (s: Square)
    requires b != {}
    ensures s in b && forall t :: t in b ==> s <= t
  {
    LowestFrom(b, 0)
  }

  /** The highest set square. */
  function Last(b: Bitboard): (s: Square)
    requires b != {}
    ensures s in b && forall t :: t in b ==> t <= s
  {
    HighestFrom(b, 63)
  }

  /**
   * The squares of `b` in the order a `for b != 0 { b.pop() ... }` loop
   * visits them: each set square exactly once (ascending, see SquaresAscending).
   */
  function Squares(b: Bitboard): (r: seq<Square>)
    ensures |r| == |b|
    ensures forall t :: t in r <==> t in b
    decreases |b|
  {
    if b == {} then [] else [First(b)] + Squares(b - {First(b)})
  }

  /** Each square `Squares` yields is above the one before it. */
  lemma {:induction false} SquaresAscending(b: Bitboard)
    ensures forall i :: 0 < i < |Squares(b)| ==> Squares(b)[i - 1] < Squares(b)[i]
    decreases |b|
  {
    if b != {} {
      var f := First(b);
      var tail := Squares(b - {f});
      SquaresAscending(b - {f});
      var r := Squares(b);
      assert r == [f] + tail;
      forall i | 0 < i < |r| ensures r[i - 1] < r[i] {
        if i == 1 {
          var t := tail[0];
          assert t in tail;
          assert t in b - {f};
          assert f <= t && f != t;
        } else {
          assert r[i - 1] == tail[i - 2] && r[i] == tail[i - 1];
        }
      }
    }
  }

  lemma AppendAssoc<T>(a: seq<T>, b: seq<T>, c: seq<T>)
    ensures a + (b + c) == (a + b) + c
  {
  }

  lemma Unfold4<T>(a: T, b: T, c: T, d: T, rest: seq<T>)
    ensures [a, b, c, d] + rest == [a] + ([b, c, d] + rest)
    ensures [b, c, d] + rest == [b] + ([c, d] + rest)
    ensures [c, d] + rest == [c] + ([d] + rest)
  {
  }

  /** A value per colour (the engine's `[2]T` arrays indexed by colour). */
  datatype ByColor<T> = ByColor(white: T, black: T) {
    function Of(c: Color): T {
      if c == White then white else black
    }
  }

  type PieceBoard = s: seq<Piece> | |s| == 64 witness seq(64, _ => Empty)

  type TargetBoard = s: seq<Bitboard> | |s| == 64 witness seq(64, _ => {})

  /**
   * The parts of a position the core reads: side to move, the square-to-piece
   * board, the per-piece bitboards ("outposts"), the precomputed target
   * bitboard of every square, the king squares and the en-passant flag
   * (0 when there is none).
   */
  datatype Position = Position(
    color: Color,
    pieces: PieceBoard,
    outposts: map<Piece, Bitboard>,
    targets: TargetBoard,
    king: ByColor<Square>,
    enpassant: int)
  {
    /** `outposts[piece]`; a piece without an entry has an empty bitboard. */
    function Outposts(piece: Piece): Bitboard {
      if piece in outposts then outposts[piece] else {}
    }
  }
}
