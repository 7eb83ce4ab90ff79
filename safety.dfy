/**
 * King safety: the placement bonus of both kings and the pawn-shield
 * penalty of a king that has left its home square while the opponent still
 * has attacking material.
 *
 * The king is looked at from its own side ("relative" squares: rank 0 is
 * the colour's back rank). For each of the up to three files around the
 * king, one pawn of the king's colour is measured: a missing pawn costs
 * `-shieldMissing.midgame`, a pawn more than one rank from the king costs
 * `-shieldDistance.midgame` per rank.
 */
module Safety {
  import opened Board

  /** A midgame/endgame score pair. */
  datatype Score = Score(midgame: int, endgame: int)

  type SquareTable = s: seq<int> | |s| == 64 witness seq(64, _ => 0)

  /**
   * The evaluation tables king safety reads: the king placement bonus for
   * the midgame and the endgame (indexed by White's view of the square),
   * the kings' home squares and the two shield penalties.
   */
  datatype Tables = Tables(
    bonusKingMid: SquareTable,
    bonusKingEnd: SquareTable,
    homeKing: ByColor<Square>,
    shieldMissing: Score,
    shieldDistance: Score)

  /** `maskFile[col]`: every square of the file. */
  function FileMask(col: int): (mask: Bitboard)
    ensures forall s: Square :: s in mask <==> Col(s) == col
  {
    set s: Square | 0 <= s < 64 && Col(s) == col
  }

  function Max(a: int, b: int): int { if a < b then b else a }

  function Min(a: int, b: int): int { if a < b then a else b }

  /** File `c` is on the board and is file `col` or one of its neighbours. */
  predicate NearFile(col: int, c: int) {
    0 <= c <= 7 && Abs(c - col) <= 1
  }

  /**
   * The files of the shield around a king on file `col`: exactly the board
   * files at most one file away, two of them on an edge, three otherwise.
   */
  function ShieldFiles(col: int): (files: (int, int))
    requires 0 <= col <= 7
    ensures forall c :: files.0 <= c <= files.1 <==> NearFile(col, c)
    ensures 0 <= files.0 <= col <= files.1 <= 7
    ensures files.1 - files.0 == if col == 0 || col == 7 then 1 else 2
  {
    (Max(0, col - 1), Min(7, col + 1))
  }

  /**
   * Which pawn of a file's shield is measured: the lowest square of the
   * file (`shield.first()`, as written) or the pawn nearest to the colour's
   * own back rank.
   */
  datatype Pick = FirstPawn | ClosestPawn

  /** The measured pawn of a non-empty file shield. */
  function ShieldPawn(pick: Pick, color: Color, shield: Bitboard): (s: Square)
    requires shield != {}
    ensures s in shield
    ensures pick == ClosestPawn ==> forall t :: t in shield ==> RelRow(s, color) <= RelRow(t, color)
    ensures pick == FirstPawn ==> forall t :: t in shield ==> s <= t
  {
    if pick == FirstPawn || color == White then First(shield) else Last(shield)
  }

  /**
   * The penalty one shield file contributes, the king being on relative
   * rank `row`: the missing penalty for a file without a pawn, otherwise
   * the distance penalty per rank between the measured pawn and the king
   * once they are more than one rank apart.
   */
  function FileTerm(t: Tables, pick: Pick, color: Color, pawns: Bitboard, row: int, column: int): (r: int)
    ensures pawns * FileMask(column) == {} ==> r == -t.shieldMissing.midgame
    ensures pawns * FileMask(column) != {} ==>
              var d := Abs(RelRow(ShieldPawn(pick, color, pawns * FileMask(column)), color) - row);
              r == if d <= 1 then 0 else d * -t.shieldDistance.midgame
  {
    var shield := pawns * FileMask(column);
    if shield != {} then
      var closest := Flip(Other(color), ShieldPawn(pick, color, shield));
      FlipRow(color, ShieldPawn(pick, color, shield));
      var distance := Abs(Row(closest) - row);
      if distance > 1 then distance * -t.shieldDistance.midgame else 0
    else
      -t.shieldMissing.midgame
  }

  /** The penalty of the files `lo`..`hi`, summed in the order the loop visits them. */
  function FilesPenalty(t: Tables, pick: Pick, color: Color, pawns: Bitboard, row: int, lo: int, hi: int): int
    decreases hi - lo + 1
  {
    if hi < lo then 0
    else FilesPenalty(t, pick, color, pawns, row, lo, hi - 1) + FileTerm(t, pick, color, pawns, row, hi)
  }

  /**
   * `kingShieldScore`: no penalty when the king is missing, still on its
   * home square, the opponent is not strong enough or the king stands
   * beyond its third relative rank; otherwise the penalty of the files
   * around the king.
   */
  function ShieldPenalty(t: Tables, pick: Pick, p: Position, strong: ByColor<bool>, color: Color): (r: int)
    ensures (|| p.Outposts(Piece(King, color)) == {}
             || p.Outposts(Piece(King, color)) == {t.homeKing.Of(color)}
             || !strong.Of(Other(color))
             || RelRow(p.king.Of(color), color) > 2) ==> r == 0
  {
    var kings := p.Outposts(Piece(King, color));
    var pawns := p.Outposts(Piece(Pawn, color));
    if kings == {} || kings == {t.homeKing.Of(color)} || !strong.Of(Other(color)) then 0
    else
      var square := Flip(Other(color), p.king.Of(color));
      KingInShieldZoneRow(p, color);
      if square > H3 then 0
      else
        var files := ShieldFiles(Col(square));
        FilesPenalty(t, pick, color, pawns, Row(square), files.0, files.1)
  }

  /** The king's rank as the shield loop sees it: its rank from its own side. */
  predicate KingInShieldZone(p: Position, color: Color) {
    Flip(Other(color), p.king.Of(color)) <= H3
  }

  lemma KingInShieldZoneRow(p: Position, color: Color)
    ensures KingInShieldZone(p, color) <==> RelRow(p.king.Of(color), color) <= 2
  {
    FlipRow(color, p.king.Of(color));
  }

  /** The largest penalty one file can carry when both penalties are non-positive constants. */
  function FileBound(t: Tables): int {
    Max(-t.shieldMissing.midgame, 7 * -t.shieldDistance.midgame)
  }

  /** One file's penalty lies between zero and `FileBound`. */
  lemma FileTermRange(t: Tables, pick: Pick, color: Color, pawns: Bitboard, row: int, column: int)
    requires t.shieldMissing.midgame <= 0 && t.shieldDistance.midgame <= 0
    requires 0 <= row <= 7
    ensures 0 <= FileTerm(t, pick, color, pawns, row, column) <= FileBound(t)
  {
    var shield := pawns * FileMask(column);
    if shield != {} {
      var closest := Flip(Other(color), ShieldPawn(pick, color, shield));
      var distance := Abs(Row(closest) - row);
      assert 0 <= distance <= 7;
      if distance > 1 {
        MulBound(distance, -t.shieldDistance.midgame);
      }
    }
  }

  lemma MulBound(d: int, k: int)
    requires 0 <= d <= 7 && 0 <= k
    ensures 0 <= d * k <= 7 * k
  {
  }

  lemma MulSucc(n: int, k: int)
    ensures n * k + k == (n + 1) * k
  {
  }

  lemma MulMono(n: int, m: int, k: int)
    requires n <= m && 0 <= k
    ensures n * k <= m * k
  {
  }

  /** The files' penalty is at least zero and at most `FileBound` per file. */
  lemma {:induction false} FilesPenaltyRange(t: Tables, pick: Pick, color: Color, pawns: Bitboard, row: int, lo: int, hi: int)
    requires t.shieldMissing.midgame <= 0 && t.shieldDistance.midgame <= 0
    requires 0 <= row <= 7 && lo <= hi + 1
    ensures 0 <= FilesPenalty(t, pick, color, pawns, row, lo, hi) <= (hi - lo + 1) * FileBound(t)
    decreases hi - lo + 1
  {
    if lo <= hi {
      FilesPenaltyRange(t, pick, color, pawns, row, lo, hi - 1);
      FileTermRange(t, pick, color, pawns, row, hi);
      MulSucc(hi - lo, FileBound(t));
    }
  }

  /**
   * Assuming both penalty constants are non-positive, the shield penalty
   * is non-negative and at most three files' worth.
   */
  lemma ShieldPenaltyRange(t: Tables, pick: Pick, p: Position, strong: ByColor<bool>, color: Color)
    requires t.shieldMissing.midgame <= 0 && t.shieldDistance.midgame <= 0
    ensures 0 <= ShieldPenalty(t, pick, p, strong, color) <= 3 * FileBound(t)
  {
    var square := Flip(Other(color), p.king.Of(color));
    var files := ShieldFiles(Col(square));
    FilesPenaltyRange(t, pick, color, p.Outposts(Piece(Pawn, color)), Row(square), files.0, files.1);
    MulMono(files.1 - files.0 + 1, 3, FileBound(t));
  }

  /**
   * A file shields the king when it holds a pawn of the king's colour that
   * is nearest to the colour's back rank among the file's pawns and at
   * most one rank from the king.
   */
  predicate FileShielded(color: Color, pawns: Bitboard, row: int, column: int) {
    exists s :: s in pawns && Col(s) == column && Abs(RelRow(s, color) - row) <= 1 &&
      forall u :: u in pawns && Col(u) == column ==> RelRow(s, color) <= RelRow(u, color)
  }

  /** A file with pawns is shielded exactly when its nearest pawn is at most one rank from the king. */
  lemma NearestPawnShields(color: Color, pawns: Bitboard, row: int, column: int)
    requires pawns * FileMask(column) != {}
    ensures var s := ShieldPawn(ClosestPawn, color, pawns * FileMask(column));
            FileShielded(color, pawns, row, column) <==> Abs(RelRow(s, color) - row) <= 1
  {
    var shield := pawns * FileMask(column);
    var s := ShieldPawn(ClosestPawn, color, shield);
    if FileShielded(color, pawns, row, column) {
      var w :| w in pawns && Col(w) == column && Abs(RelRow(w, color) - row) <= 1 &&
        forall u :: u in pawns && Col(u) == column ==> RelRow(w, color) <= RelRow(u, color);
      assert w in shield;
      assert RelRow(s, color) == RelRow(w, color);
    } else {
      assert !(s in pawns && Col(s) == column && Abs(RelRow(s, color) - row) <= 1 &&
        forall u :: u in pawns && Col(u) == column ==> RelRow(s, color) <= RelRow(u, color));
    }
  }

  lemma MulPositive(d: int, k: int)
    requires d > 1 && k > 0
    ensures d * k > 0
  {
  }

  /** With strictly negative constants, a file costs nothing exactly when it is shielded. */
  lemma FileTermZero(t: Tables, color: Color, pawns: Bitboard, row: int, column: int)
    requires t.shieldMissing.midgame < 0 && t.shieldDistance.midgame < 0
    ensures FileTerm(t, ClosestPawn, color, pawns, row, column) == 0 <==> FileShielded(color, pawns, row, column)
  {
    var shield := pawns * FileMask(column);
    if shield != {} {
      var s := ShieldPawn(ClosestPawn, color, shield);
      FlipRow(color, s);
      NearestPawnShields(color, pawns, row, column);
      var distance := Abs(Row(Flip(Other(color), s)) - row);
      if distance > 1 {
        MulPositive(distance, -t.shieldDistance.midgame);
      }
    } else {
      forall w: Square | w in pawns && Col(w) == column
        ensures w in shield
      {
      }
    }
  }

  /** The files' penalty is zero exactly when every file in the range is shielded. */
  lemma {:induction false} FilesPenaltyZero(t: Tables, color: Color, pawns: Bitboard, row: int, lo: int, hi: int)
    requires t.shieldMissing.midgame < 0 && t.shieldDistance.midgame < 0
    requires 0 <= row <= 7 && lo <= hi + 1
    ensures FilesPenalty(t, ClosestPawn, color, pawns, row, lo, hi) == 0 <==>
            (forall c :: lo <= c <= hi ==> FileShielded(color, pawns, row, c))
    decreases hi - lo + 1
  {
    if lo <= hi {
      FilesPenaltyZero(t, color, pawns, row, lo, hi - 1);
      FilesPenaltyRange(t, ClosestPawn, color, pawns, row, lo, hi - 1);
      FileTermRange(t, ClosestPawn, color, pawns, row, hi);
      FileTermZero(t, color, pawns, row, hi);
    }
  }

  /**
   * A king that has castled into its shield zone against a strong opponent
   * costs nothing exactly when each of the files next to it and its own
   * file is shielded.
   */
  lemma ShieldPenaltyZero(t: Tables, p: Position, strong: ByColor<bool>, color: Color)
    requires t.shieldMissing.midgame < 0 && t.shieldDistance.midgame < 0
    requires p.Outposts(Piece(King, color)) != {} && p.Outposts(Piece(King, color)) != {t.homeKing.Of(color)}
    requires strong.Of(Other(color)) && RelRow(p.king.Of(color), color) <= 2
    ensures ShieldPenalty(t, ClosestPawn, p, strong, color) == 0 <==>
            (forall c :: 0 <= c <= 7 && Abs(c - Col(p.king.Of(color))) <= 1 ==>
               FileShielded(color, p.Outposts(Piece(Pawn, color)), RelRow(p.king.Of(color), color), c))
  {
    var king := p.king.Of(color);
    var square := Flip(Other(color), king);
    KingInShieldZoneRow(p, color);
    FlipRow(color, king);
    assert Col(square) == Col(king);
    var files := ShieldFiles(Col(square));
    FilesPenaltyZero(t, color, p.Outposts(Piece(Pawn, color)), Row(square), files.0, files.1);
  }

  /** For White the lowest pawn of a file is the nearest one: both picks agree. */
  lemma {:induction false} WhitePicksAgree(t: Tables, pawns: Bitboard, row: int, lo: int, hi: int)
    ensures FilesPenalty(t, FirstPawn, White, pawns, row, lo, hi) == FilesPenalty(t, ClosestPawn, White, pawns, row, lo, hi)
    decreases hi - lo + 1
  {
    if lo <= hi {
      WhitePicksAgree(t, pawns, row, lo, hi - 1);
    }
  }

  /**
   * As written, a black king on g8 behind pawns on f7, g7 and h7 is charged
   * for the g-file because the extra pawn on g5 is the file's lowest square:
   * the pawn measured is the one farthest from the king. The nearest-pawn
   * pick charges nothing.
   */
  lemma BlackShieldCounterexample(t: Tables, strong: ByColor<bool>)
    requires t.homeKing.black == 60 && strong.white
    ensures ShieldPenalty(t, FirstPawn, CounterexamplePosition(), strong, Black) == 3 * -t.shieldDistance.midgame
    ensures ShieldPenalty(t, ClosestPawn, CounterexamplePosition(), strong, Black) == 0
  {
    var p := CounterexamplePosition();
    assert p.Outposts(Piece(King, Black)) == {62};
    assert p.Outposts(Piece(Pawn, Black)) == {53, 54, 38, 55};
    assert Flip(White, 62) == 6;
    assert ShieldFiles(Col(6)) == (5, 7);
    CounterexampleFileF(t, FirstPawn);
    CounterexampleFileF(t, ClosestPawn);
    CounterexampleFileG(t);
    CounterexampleFileH(t, FirstPawn);
    CounterexampleFileH(t, ClosestPawn);
  }

  /** Black to move, king on g8, pawns on f7, g7, h7 and g5. */
  function CounterexamplePosition(): Position {
    Position(Black, seq(64, _ => Empty),
             map[Piece(King, Black) := {62}, Piece(Pawn, Black) := {53, 54, 38, 55}],
             seq(64, _ => {}), ByColor(4, 62), 0)
  }

  /** The f-file of the counterexample: one pawn, on f7, next to the king's rank. */
  lemma CounterexampleFileF(t: Tables, pick: Pick)
    ensures FileTerm(t, pick, Black, {53, 54, 38, 55}, 0, 5) == 0
  {
    var pawns: Bitboard := {53, 54, 38, 55};
    assert pawns * FileMask(5) == {53};
    assert First({53}) == 53 && Last({53}) == 53;
    assert Row(Flip(White, 53)) == 1;
  }

  /** The g-file of the counterexample: pawns on g7 and g5, only the lower one charged. */
  lemma CounterexampleFileG(t: Tables)
    ensures FileTerm(t, FirstPawn, Black, {53, 54, 38, 55}, 0, 6) == 3 * -t.shieldDistance.midgame
    ensures FileTerm(t, ClosestPawn, Black, {53, 54, 38, 55}, 0, 6) == 0
  {
    var pawns: Bitboard := {53, 54, 38, 55};
    assert pawns * FileMask(6) == {38, 54};
    assert First({38, 54}) == 38;
    assert Last({38, 54}) == 54;
    assert Row(Flip(White, 38)) == 3 && Row(Flip(White, 54)) == 1;
  }

  /** The h-file of the counterexample: one pawn, on h7, next to the king's rank. */
  lemma CounterexampleFileH(t: Tables, pick: Pick)
    ensures FileTerm(t, pick, Black, {53, 54, 38, 55}, 0, 7) == 0
  {
    var pawns: Bitboard := {53, 54, 38, 55};
    assert pawns * FileMask(7) == {55};
    assert First({55}) == 55 && Last({55}) == 55;
    assert Row(Flip(White, 55)) == 1;
  }

  /**
   * The king placement term of `analyzeKingSafety`: White's bonus, read
   * from White's mirrored square, less Black's bonus.
   */
  function Placement(table: SquareTable, king: ByColor<Square>): int {
    table[Mirror(king.white)] - table[king.black]
  }

  /**
   * The placement term is colour-symmetric: swapping the kings' colours and
   * mirroring the board negates it.
   */
  lemma PlacementAntisymmetric(table: SquareTable, king: ByColor<Square>)
    ensures Placement(table, ByColor(Mirror(king.black), Mirror(king.white))) == -Placement(table, king)
  {
    MirrorInvolution(king.black);
  }

  /** The evaluator's running midgame and endgame scores for one position. */
  class Evaluator {
    const position: Position
    /** `strongEnough(color)`: whether `color` has the material to attack the king. */
    const strong: ByColor<bool>
    var midgame: int
    var endgame: int

    constructor (position: Position, strong: ByColor<bool>)
      ensures this.position == position && this.strong == strong
      ensures midgame == 0 && endgame == 0
    {
      this.position := position;
      this.strong := strong;
      midgame := 0;
      endgame := 0;
    }

    /** `kingShieldScore`, measuring the pawn nearest to the king's back rank in each file. */
    method KingShieldScore(t: Tables, color: Color) returns (penalty: int)
      ensures penalty == ShieldPenalty(t, ClosestPawn, position, strong, color)
    {
      penalty := 0;
      var p := position;
      var kings, pawns := p.Outposts(Piece(King, color)), p.Outposts(Piece(Pawn, color));
      if kings == {} || kings == {t.homeKing.Of(color)} || !strong.Of(Other(color)) {
        return;
      }
      var square := Flip(Other(color), p.king.Of(color));
      if square > H3 {
        return;
      }
      var row, col := Row(square), Col(square);
      penalty := ScanShield(t, color, pawns, row, Max(0, col - 1), Min(7, col + 1));
    }

    /** The loop of `kingShieldScore` over the files `from`..`to` around the king. */
    method ScanShield(t: Tables, color: Color, pawns: Bitboard, row: int, from: int, to: int) returns (penalty: int)
      requires from <= to + 1
      ensures penalty == FilesPenalty(t, ClosestPawn, color, pawns, row, from, to)
    {
      penalty := 0;
      for column := from to to + 1
        invariant penalty == FilesPenalty(t, ClosestPawn, color, pawns, row, from, column - 1)
      {
        penalty := ShieldFile(t, color, pawns, row, column, penalty);
      }
    }

    /** The body of `kingShieldScore`'s loop: one shield file's penalty is added. */
    method ShieldFile(t: Tables, color: Color, pawns: Bitboard, row: int, column: int, penalty: int) returns (r: int)
      ensures r == penalty + FileTerm(t, ClosestPawn, color, pawns, row, column)
    {
      r := penalty;
      var shield := pawns * FileMask(column);
      if shield != {} {
        var closest := Flip(Other(color), ShieldPawn(ClosestPawn, color, shield));
        var distance := Abs(Row(closest) - row);
        if distance > 1 {
          r := r + distance * -t.shieldDistance.midgame;
        }
      } else {
        r := r + -t.shieldMissing.midgame;
      }
    }

    /**
     * `analyzeKingSafety`: both scores gain White's placement bonus and lose
     * Black's; the midgame also gains the shield penalty difference.
     */
    method AnalyzeKingSafety(t: Tables)
      modifies this
      ensures endgame == old(endgame) + Placement(t.bonusKingEnd, position.king)
      ensures midgame == old(midgame) + Placement(t.bonusKingMid, position.king)
                         + ShieldPenalty(t, ClosestPawn, position, strong, White)
                         - ShieldPenalty(t, ClosestPawn, position, strong, Black)
    {
      var square := Mirror(position.king.white);
      midgame := midgame + t.bonusKingMid[square];
      endgame := endgame + t.bonusKingEnd[square];
      square := position.king.black;
      midgame := midgame - t.bonusKingMid[square];
      endgame := endgame - t.bonusKingEnd[square];

      var white := KingShieldScore(t, White);
      var black := KingShieldScore(t, Black);
      midgame := midgame + white - black;
    }
  }
}
