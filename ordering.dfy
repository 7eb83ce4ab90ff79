/**
 * Move ordering and the slice-building generators of `Position`.
 *
 * `reorderMoves` is a stable partition: the first occurrence of the principal
 * (best) move, if it is non-zero and present, goes first; every other move
 * lands in one of four buckets (captures, promotions, killers, remaining),
 * each kept in input order, except that the first two killers trade places
 * when the first one is the second killer slot's move. `reorderCaptures`
 * only lifts the first occurrence of the best move to the front.
 */
module Ordering {
  import opened Board
  import opened Moves
  import opened Emission

  /** The two killer moves of a ply (`goodMove [2]Move`); `NoMove` marks an empty slot. */
  datatype Killers = Killers(first: Move, second: Move)

  /** The buckets the non-principal moves are sorted into, in output order. */
  datatype Bucket = CaptureBucket | PromotionBucket | KillerBucket | RemainingBucket

  function Rank(b: Bucket): nat {
    match b
    case CaptureBucket => 0
    case PromotionBucket => 1
    case KillerBucket => 2
    case RemainingBucket => 3
  }

  predicate IsKiller(m: Move, good: Killers) {
    (good.first != NoMove && m == good.first) || (good.second != NoMove && m == good.second)
  }

  /** The first test of the `else if` chain that `m` passes. */
  function BucketOf(m: Move, good: Killers): Bucket {
    if m.IsCapture() then CaptureBucket
    else if m.IsPromo() then PromotionBucket
    else if IsKiller(m, good) then KillerBucket
    else RemainingBucket
  }

  /** The moves of `ms` that fall into bucket `b`, in input order. */
  function Filter(ms: seq<Move>, b: Bucket, good: Killers): (r: seq<Move>)
    ensures |r| <= |ms|
    ensures forall m :: m in r ==> m in ms && BucketOf(m, good) == b
  {
    if ms == [] then []
    else (if BucketOf(ms[0], good) == b then [ms[0]] else []) + Filter(ms[1..], b, good)
  }

  /** The index of the first occurrence of `x`. */
  function IndexOf(ms: seq<Move>, x: Move): (i: nat)
    requires x in ms
    ensures i < |ms| && ms[i] == x && x !in ms[..i]
  {
    if ms[0] == x then 0
    else
      var j := IndexOf(ms[1..], x);
      assert ms[..j + 1] == [ms[0]] + ms[1..][..j];
      j + 1
  }

  /** `ms` without the first occurrence of `x`. */
  function Drop(ms: seq<Move>, x: Move): (r: seq<Move>)
    requires x in ms
    ensures |r| == |ms| - 1
    ensures multiset(r) + multiset{x} == multiset(ms)
  {
    var i := IndexOf(ms, x);
    assert ms == ms[..i] + [x] + ms[i + 1..];
    ms[..i] + ms[i + 1..]
  }

  /** Whether `reorderMoves` has a principal move to put first. */
  predicate HasPrincipal(ms: seq<Move>, best: Move) {
    best != NoMove && best in ms
  }

  /** The moves that go into the buckets: all but the principal one. */
  function Rest(ms: seq<Move>, best: Move): seq<Move> {
    if HasPrincipal(ms, best) then Drop(ms, best) else ms
  }

  function Principal(ms: seq<Move>, best: Move): seq<Move> {
    if HasPrincipal(ms, best) then [best] else []
  }

  /** The killer tie-break: the first two killers trade places when the first is the second slot's move. */
  function SwapKillers(k: seq<Move>, good: Killers): (r: seq<Move>)
    ensures |r| == |k| && multiset(r) == multiset(k)
  {
    if |k| > 1 && k[0] == good.second then
      assert k == [k[0], k[1]] + k[2..];
      [k[1], k[0]] + k[2..]
    else k
  }

  /** The bucketed moves in output order: captures, promotions, killers (tie-broken), remaining. */
  function Buckets(rest: seq<Move>, good: Killers): seq<Move> {
    Filter(rest, CaptureBucket, good)
      + Filter(rest, PromotionBucket, good)
      + SwapKillers(Filter(rest, KillerBucket, good), good)
      + Filter(rest, RemainingBucket, good)
  }

  /** The order `reorderMoves` returns. */
  function Reordered(ms: seq<Move>, best: Move, good: Killers): seq<Move> {
    Principal(ms, best) + Buckets(Rest(ms, best), good)
  }

  /** The five slices `reorderMoves` fills, in output order. */
  datatype Parts = Parts(principal: seq<Move>, captures: seq<Move>, promotions: seq<Move>,
                         killers: seq<Move>, remaining: seq<Move>)

  /** Where one move goes as the loop of `reorderMoves` meets it. */
  function Place(parts: Parts, m: Move, best: Move, good: Killers): Parts {
    if |parts.principal| == 0 && best != NoMove && m == best then parts.(principal := parts.principal + [m])
    else match BucketOf(m, good)
      case CaptureBucket => parts.(captures := parts.captures + [m])
      case PromotionBucket => parts.(promotions := parts.promotions + [m])
      case KillerBucket => parts.(killers := parts.killers + [m])
      case RemainingBucket => parts.(remaining := parts.remaining + [m])
  }

  /** The slices after the loop of `reorderMoves` has placed every move of `ms`, one at a time. */
  function Partition(ms: seq<Move>, best: Move, good: Killers): Parts {
    if ms == [] then Parts([], [], [], [], [])
    else Place(Partition(ms[..|ms| - 1], best, good), ms[|ms| - 1], best, good)
  }

  /** The order `reorderCaptures` returns. */
  function ReorderedCaptures(ms: seq<Move>, best: Move): seq<Move> {
    if best in ms then [best] + Drop(ms, best) else ms
  }

  /** Where one move goes as the loop of `reorderCaptures` meets it: principal or remaining. */
  function PlaceCapture(slices: (seq<Move>, seq<Move>), m: Move, best: Move): (seq<Move>, seq<Move>) {
    if |slices.0| == 0 && m == best then (slices.0 + [m], slices.1) else (slices.0, slices.1 + [m])
  }

  /** The two slices of `reorderCaptures` after its loop has placed every move of `ms`, one at a time. */
  function SplitCaptures(ms: seq<Move>, best: Move): (seq<Move>, seq<Move>) {
    if ms == [] then ([], [])
    else PlaceCapture(SplitCaptures(ms[..|ms| - 1], best), ms[|ms| - 1], best)
  }

  // ---------------------------------------------------------------------
  // Lemmas about the specification

  lemma {:induction false} FilterAppend(a: seq<Move>, c: seq<Move>, b: Bucket, good: Killers)
    ensures Filter(a + c, b, good) == Filter(a, b, good) + Filter(c, b, good)
  {
    if a == [] {
      assert a + c == c;
    } else {
      assert (a + c)[1..] == a[1..] + c;
      FilterAppend(a[1..], c, b, good);
      AppendAssoc(if BucketOf(a[0], good) == b then [a[0]] else [], Filter(a[1..], b, good), Filter(c, b, good));
    }
  }

  /** Filtering after appending one move: the move joins its own bucket and no other. */
  lemma FilterSnoc(a: seq<Move>, m: Move, b: Bucket, good: Killers)
    ensures BucketOf(m, good) == b ==> Filter(a + [m], b, good) == Filter(a, b, good) + [m]
    ensures BucketOf(m, good) != b ==> Filter(a + [m], b, good) == Filter(a, b, good)
  {
    FilterAppend(a, [m], b, good);
  }

  /** Bucket `b` holds each move of its own bucket as often as `ms` does, and no other move. */
  lemma {:induction false} FilterCount(ms: seq<Move>, b: Bucket, good: Killers, m: Move)
    ensures multiset(Filter(ms, b, good))[m] == if BucketOf(m, good) == b then multiset(ms)[m] else 0
  {
    if ms != [] {
      var h, t := ms[0], ms[1..];
      FilterCount(t, b, good, m);
      assert ms == [h] + t;
      assert multiset(ms) == multiset{h} + multiset(t);
      if BucketOf(h, good) == b {
        assert multiset(Filter(ms, b, good)) == multiset{h} + multiset(Filter(t, b, good));
      } else {
        assert Filter(ms, b, good) == Filter(t, b, good);
      }
    }
  }

  /** The four buckets together hold every move exactly as often as the input does. */
  lemma FilterPartition(ms: seq<Move>, good: Killers)
    ensures multiset(Filter(ms, CaptureBucket, good)) + multiset(Filter(ms, PromotionBucket, good))
            + multiset(Filter(ms, KillerBucket, good)) + multiset(Filter(ms, RemainingBucket, good))
            == multiset(ms)
  {
    var all := multiset(Filter(ms, CaptureBucket, good)) + multiset(Filter(ms, PromotionBucket, good))
               + multiset(Filter(ms, KillerBucket, good)) + multiset(Filter(ms, RemainingBucket, good));
    forall m ensures all[m] == multiset(ms)[m] {
      FilterCount(ms, CaptureBucket, good, m);
      FilterCount(ms, PromotionBucket, good, m);
      FilterCount(ms, KillerBucket, good, m);
      FilterCount(ms, RemainingBucket, good, m);
    }
  }

  predicate InBucket(ms: seq<Move>, b: Bucket, good: Killers) {
    forall m :: m in ms ==> BucketOf(m, good) == b
  }

  /** A sequence whose moves all lie in bucket `b` filters to itself on `b` and to nothing elsewhere. */
  lemma {:induction false} FilterUniform(ms: seq<Move>, b: Bucket, c: Bucket, good: Killers)
    requires InBucket(ms, b, good)
    ensures Filter(ms, c, good) == if b == c then ms else []
  {
    if ms != [] {
      assert ms[0] in ms;
      FilterUniform(ms[1..], b, c, good);
      assert ms == [ms[0]] + ms[1..];
    }
  }

  lemma FirstIndexUnique(s: seq<Move>, x: Move, i: nat, j: nat)
    requires i < |s| && s[i] == x && x !in s[..i]
    requires j < |s| && s[j] == x && x !in s[..j]
    ensures i == j
  {
    if i < j {
      assert false;
    } else if j < i {
      assert false;
    }
  }

  /** Dropping the first occurrence after appending a move. */
  lemma DropSnoc(a: seq<Move>, m: Move, x: Move)
    requires x in a || m == x
    ensures x in a ==> Drop(a + [m], x) == Drop(a, x) + [m]
    ensures x !in a ==> Drop(a + [m], x) == a
  {
    var s := a + [m];
    var j := IndexOf(s, x);
    if x in a {
      var i := IndexOf(a, x);
      assert s[..i] == a[..i];
      assert s[i] == x;
      FirstIndexUnique(s, x, i, j);
      assert s[i + 1..] == a[i + 1..] + [m];
    } else {
      assert s[..|a|] == a;
      assert j == |a|;
    }
  }

  /** How `Rest` and `Principal` of a prefix grow by one move, as the loop of `reorderMoves` sees them. */
  lemma RestSnoc(a: seq<Move>, m: Move, best: Move)
    ensures !HasPrincipal(a, best) && best != NoMove && m == best ==>
              Rest(a + [m], best) == a && Principal(a + [m], best) == [best]
    ensures !(!HasPrincipal(a, best) && best != NoMove && m == best) ==>
              Rest(a + [m], best) == Rest(a, best) + [m] && Principal(a + [m], best) == Principal(a, best)
  {
    if best in a || m == best {
      DropSnoc(a, m, best);
    }
  }

  /** The slices as the declarative order defines them: the principal move and each bucket's filter. */
  function SpecParts(ms: seq<Move>, best: Move, good: Killers): Parts {
    var rest := Rest(ms, best);
    Parts(Principal(ms, best),
          Filter(rest, CaptureBucket, good), Filter(rest, PromotionBucket, good),
          Filter(rest, KillerBucket, good), Filter(rest, RemainingBucket, good))
  }

  /** Placing one more move keeps the slices equal to the declarative ones. */
  lemma PlaceStep(a: seq<Move>, m: Move, best: Move, good: Killers)
    ensures Place(SpecParts(a, best, good), m, best, good) == SpecParts(a + [m], best, good)
  {
    RestSnoc(a, m, best);
    var rest := Rest(a, best);
    FilterSnoc(rest, m, CaptureBucket, good);
    FilterSnoc(rest, m, PromotionBucket, good);
    FilterSnoc(rest, m, KillerBucket, good);
    FilterSnoc(rest, m, RemainingBucket, good);
  }

  /**
   * Placing the moves one at a time fills each slice with the declarative
   * bucket: the principal move, and the filters of the other moves.
   */
  lemma {:induction false} PartitionSpec(ms: seq<Move>, best: Move, good: Killers)
    ensures Partition(ms, best, good) == SpecParts(ms, best, good)
  {
    if ms != [] {
      var a, m := ms[..|ms| - 1], ms[|ms| - 1];
      assert ms == a + [m];
      PartitionSpec(a, best, good);
      PlaceStep(a, m, best, good);
    }
  }

  /** The buckets hold exactly the moves they are built from. */
  lemma BucketsPermutation(rest: seq<Move>, good: Killers)
    ensures multiset(Buckets(rest, good)) == multiset(rest)
  {
    FilterPartition(rest, good);
  }

  /** `reorderMoves` returns a permutation of its input. */
  lemma ReorderedPermutation(ms: seq<Move>, best: Move, good: Killers)
    ensures |Reordered(ms, best, good)| == |ms|
    ensures multiset(Reordered(ms, best, good)) == multiset(ms)
  {
    BucketsPermutation(Rest(ms, best), good);
    assert multiset(Principal(ms, best)) + multiset(Rest(ms, best)) == multiset(ms);
    assert |Reordered(ms, best, good)| == |multiset(Reordered(ms, best, good))|;
  }

  /** A non-zero best move that occurs in the input comes out first. */
  lemma ReorderedPrincipalFirst(ms: seq<Move>, best: Move, good: Killers)
    requires HasPrincipal(ms, best)
    ensures Reordered(ms, best, good)[0] == best
  {
  }

  lemma KillersInBucket(rest: seq<Move>, good: Killers)
    ensures InBucket(SwapKillers(Filter(rest, KillerBucket, good), good), KillerBucket, good)
  {
    var k := SwapKillers(Filter(rest, KillerBucket, good), good);
    forall m | m in k ensures BucketOf(m, good) == KillerBucket {
      assert m in multiset(k);
    }
  }

  /** Bucket ranks never decrease along `ms`. */
  predicate RanksSorted(ms: seq<Move>, good: Killers) {
    forall i, j :: 0 <= i < j < |ms| ==> Rank(BucketOf(ms[i], good)) <= Rank(BucketOf(ms[j], good))
  }

  lemma SortedAppend(x: seq<Move>, y: seq<Move>, n: nat, good: Killers)
    requires RanksSorted(x, good) && RanksSorted(y, good)
    requires forall m :: m in x ==> Rank(BucketOf(m, good)) <= n
    requires forall m :: m in y ==> n < Rank(BucketOf(m, good))
    ensures RanksSorted(x + y, good)
  {
    var s := x + y;
    forall i, j | 0 <= i < j < |s| ensures Rank(BucketOf(s[i], good)) <= Rank(BucketOf(s[j], good)) {
      if j < |x| {
        assert s[i] == x[i] && s[j] == x[j];
      } else if i >= |x| {
        assert s[i] == y[i - |x|] && s[j] == y[j - |x|];
      } else {
        assert s[i] == x[i] && x[i] in x;
        assert s[j] == y[j - |x|] && y[j - |x|] in y;
      }
    }
  }

  lemma UniformSorted(ms: seq<Move>, b: Bucket, good: Killers)
    requires InBucket(ms, b, good)
    ensures RanksSorted(ms, good)
  {
    forall i, j | 0 <= i < j < |ms| ensures Rank(BucketOf(ms[i], good)) <= Rank(BucketOf(ms[j], good)) {
      assert ms[i] in ms && ms[j] in ms;
    }
  }

  /** After the principal move the buckets come in the order captures, promotions, killers, remaining. */
  lemma ReorderedBucketOrder(ms: seq<Move>, best: Move, good: Killers)
    ensures RanksSorted(Reordered(ms, best, good)[|Principal(ms, best)|..], good)
  {
    var rest := Rest(ms, best);
    var c := Filter(rest, CaptureBucket, good);
    var pr := Filter(rest, PromotionBucket, good);
    var k := SwapKillers(Filter(rest, KillerBucket, good), good);
    var rem := Filter(rest, RemainingBucket, good);
    KillersInBucket(rest, good);
    UniformSorted(c, CaptureBucket, good);
    UniformSorted(pr, PromotionBucket, good);
    UniformSorted(k, KillerBucket, good);
    UniformSorted(rem, RemainingBucket, good);
    SortedAppend(c, pr, 0, good);
    SortedAppend(c + pr, k, 1, good);
    SortedAppend(c + pr + k, rem, 2, good);
    ReorderedTail(ms, best, good);
  }

  /** Filtering distributes over the four concatenated buckets. */
  lemma FilterConcat4(c: seq<Move>, pr: seq<Move>, k: seq<Move>, rem: seq<Move>, b: Bucket, good: Killers)
    ensures Filter(c + pr + k + rem, b, good) ==
            Filter(c, b, good) + Filter(pr, b, good) + Filter(k, b, good) + Filter(rem, b, good)
  {
    FilterAppend(c + pr + k, rem, b, good);
    FilterAppend(c + pr, k, b, good);
    FilterAppend(c, pr, b, good);
  }

  /** What follows the principal move is the bucketed rest. */
  lemma ReorderedTail(ms: seq<Move>, best: Move, good: Killers)
    ensures Reordered(ms, best, good)[|Principal(ms, best)|..] == Buckets(Rest(ms, best), good)
  {
  }

  /**
   * Within each bucket the output keeps input order; the killer bucket
   * differs from input order only by the tie-break swap.
   */
  lemma ReorderedStable(ms: seq<Move>, best: Move, good: Killers, b: Bucket)
    ensures var r := Reordered(ms, best, good)[|Principal(ms, best)|..];
            Filter(r, b, good) ==
              if b == KillerBucket then SwapKillers(Filter(Rest(ms, best), b, good), good)
              else Filter(Rest(ms, best), b, good)
  {
    ReorderedTail(ms, best, good);
    BucketsStable(Rest(ms, best), good, b);
  }

  /** Each bucket of the bucketed moves is the input's bucket, the killers tie-broken. */
  lemma BucketsStable(rest: seq<Move>, good: Killers, b: Bucket)
    ensures Filter(Buckets(rest, good), b, good) ==
              if b == KillerBucket then SwapKillers(Filter(rest, b, good), good)
              else Filter(rest, b, good)
  {
    var c := Filter(rest, CaptureBucket, good);
    var pr := Filter(rest, PromotionBucket, good);
    var k := SwapKillers(Filter(rest, KillerBucket, good), good);
    var rem := Filter(rest, RemainingBucket, good);
    KillersInBucket(rest, good);
    FilterBuckets(c, pr, k, rem, b, good);
  }

  /** Four concatenated single-bucket sequences filter, on bucket `b`, to the one that holds `b`. */
  lemma FilterBuckets(c: seq<Move>, pr: seq<Move>, k: seq<Move>, rem: seq<Move>, b: Bucket, good: Killers)
    requires InBucket(c, CaptureBucket, good) && InBucket(pr, PromotionBucket, good)
    requires InBucket(k, KillerBucket, good) && InBucket(rem, RemainingBucket, good)
    ensures Filter(c + pr + k + rem, b, good) ==
              match b
              case CaptureBucket => c
              case PromotionBucket => pr
              case KillerBucket => k
              case RemainingBucket => rem
  {
    FilterConcat4(c, pr, k, rem, b, good);
    FilterUniform(c, CaptureBucket, b, good);
    FilterUniform(pr, PromotionBucket, b, good);
    FilterUniform(k, KillerBucket, b, good);
    FilterUniform(rem, RemainingBucket, b, good);
    match b
    case CaptureBucket => assert c + [] + [] + [] == c;
    case PromotionBucket => assert [] + pr + [] + [] == pr;
    case KillerBucket => assert [] + [] + k + [] == k;
    case RemainingBucket => assert [] + [] + [] + rem == rem;
  }

  /** The killers trade places only when there are two of them and the first is the second slot's move. */
  lemma KillerSwapOnlyOnTie(k: seq<Move>, good: Killers)
    ensures SwapKillers(k, good) != k ==> |k| > 1 && k[0] == good.second && k[0] != k[1]
    ensures |k| > 1 && k[0] == good.second ==> SwapKillers(k, good)[0] == k[1] && SwapKillers(k, good)[1] == k[0]
  {
  }

  /** Placing the moves one at a time puts the first copy of the best move apart from all the others. */
  lemma {:induction false} SplitCapturesSpec(ms: seq<Move>, best: Move)
    ensures SplitCaptures(ms, best) ==
            if best in ms then ([best], Drop(ms, best)) else ([], ms)
  {
    if ms != [] {
      var a, m := ms[..|ms| - 1], ms[|ms| - 1];
      assert ms == a + [m];
      SplitCapturesSpec(a, best);
      if best in a {
        DropSnoc(a, m, best);
      } else if m == best {
        DropSnoc(a, m, best);
        assert [] + [m] == [best];
      }
    }
  }

  /** `reorderCaptures` returns a permutation, best move first when present, the rest in input order. */
  lemma ReorderedCapturesOrder(ms: seq<Move>, best: Move)
    ensures multiset(ReorderedCaptures(ms, best)) == multiset(ms)
    ensures best in ms ==> ReorderedCaptures(ms, best)[0] == best
    ensures best in ms ==> ReorderedCaptures(ms, best)[1..] == ms[..IndexOf(ms, best)] + ms[IndexOf(ms, best) + 1..]
    ensures best !in ms ==> ReorderedCaptures(ms, best) == ms
  {
    if best in ms {
      assert ReorderedCaptures(ms, best)[1..] == Drop(ms, best);
    }
  }

  // ---------------------------------------------------------------------
  // The slice-building generators and the orderings, as the engine runs them

  /**
   * `possibleMoves`: a move per target of the piece on `square`, or the four
   * promotions where a pawn reaches the first or last rank.
   */
  method PossibleMoves(p: Position, square: Square, piece: Piece) returns (moves: seq<Move>)
    ensures moves == PieceMoves(p, square, piece)
  {
    moves := CollectTargets(p, AnyMove(piece), square);
  }

  /**
   * `Position.possibleCaptures`: a move per occupied target (four on a
   * promotion), and one for an empty target that is the en-passant square.
   */
  method PossibleCaptures(p: Position, square: Square, piece: Piece) returns (moves: seq<Move>)
    ensures moves == PieceCaptures(p, square, piece)
  {
    moves := CollectTargets(p, CaptureOnly(piece), square);
  }

  /**
   * The `for targets != 0 { target := targets.pop(); ... }` loop of the two
   * slice-building generators, with the body selected by `e`.
   */
  method CollectTargets(p: Position, e: Emitter, square: Square) returns (moves: seq<Move>)
    requires e.AnyMove? || e.CaptureOnly?
    ensures moves == TargetMoves(p, e, square, Squares(p.targets[square]))
  {
    moves := [];
    var targets: Bitboard := p.targets[square];
    while targets != {}
      invariant moves + TargetMoves(p, e, square, Squares(targets)) == TargetMoves(p, e, square, Squares(p.targets[square]))
      decreases |targets|
    {
      var target := First(targets);
      PopTarget(p, e, square, targets);
      targets := targets - {target};
      var emitted := CollectTarget(p, e, square, target);
      AppendAssoc(moves, emitted, TargetMoves(p, e, square, Squares(targets)));
      moves := moves + emitted;
    }
    assert moves + [] == moves;
  }

  /** The loop bodies of `possibleMoves` and `Position.possibleCaptures` for one popped `target`. */
  method CollectTarget(p: Position, e: Emitter, square: Square, target: Square) returns (moves: seq<Move>)
    requires e.AnyMove? || e.CaptureOnly?
    ensures moves == Emit(p, e, square, target)
  {
    moves := [];
    var piece := e.piece;
    if e.CaptureOnly? && p.pieces[target] == Empty {
      if p.enpassant != 0 && target == p.enpassant {
        moves := moves + [NewMove(p, square, target)];
      }
    } else if !IsPawnPromotion(piece, target) {
      moves := moves + [NewMove(p, square, target)];
    } else {
      for k := 0 to |PROMOTIONS|
        invariant moves == Promotions(NewMove(p, square, target))[..k]
      {
        var candidate := Promote(NewMove(p, square, target), PROMOTIONS[k]);
        moves := moves + [candidate];
      }
    }
  }

  /** The loop of `reorderMoves`: each move goes to the first slice it qualifies for. */
  method SplitMoves(moves: seq<Move>, bestMove: Move, goodMove: Killers)
    returns (principal: seq<Move>, captures: seq<Move>, promotions: seq<Move>, killers: seq<Move>, remaining: seq<Move>)
    ensures Parts(principal, captures, promotions, killers, remaining) == Partition(moves, bestMove, goodMove)
  {
    principal, killers, captures, promotions, remaining := [], [], [], [], [];
    for i := 0 to |moves|
      invariant Parts(principal, captures, promotions, killers, remaining) == Partition(moves[..i], bestMove, goodMove)
    {
      var move := moves[i];
      assert moves[..i + 1][..i] == moves[..i];
      if |principal| == 0 && bestMove != NoMove && move == bestMove {
        principal := principal + [move];
      } else if move.IsCapture() {
        captures := captures + [move];
      } else if move.IsPromo() {
        promotions := promotions + [move];
      } else if (goodMove.first != NoMove && move == goodMove.first) || (goodMove.second != NoMove && move == goodMove.second) {
        killers := killers + [move];
      } else {
        remaining := remaining + [move];
      }
    }
    assert moves[..|moves|] == moves;
  }

  /** `reorderMoves`: the principal move, then captures, promotions, killers and the remaining moves. */
  method ReorderMoves(moves: seq<Move>, bestMove: Move, goodMove: Killers) returns (r: seq<Move>)
    ensures r == Reordered(moves, bestMove, goodMove)
  {
    var principal, captures, promotions, killers, remaining := SplitMoves(moves, bestMove, goodMove);
    PartitionSpec(moves, bestMove, goodMove);
    ghost var bucketed := killers;
    if |killers| > 1 && killers[0] == goodMove.second {
      killers := killers[0 := killers[1]][1 := killers[0]];
      assert killers == [bucketed[1], bucketed[0]] + bucketed[2..];
    }
    r := principal + captures + promotions + killers + remaining;
    AppendAssoc(principal, captures, promotions);
    AppendAssoc(principal, captures + promotions, killers);
    AppendAssoc(principal, captures + promotions + killers, remaining);
  }

  /** `reorderCaptures`: the first occurrence of the best move first, the rest in input order. */
  method ReorderCaptures(moves: seq<Move>, bestMove: Move) returns (r: seq<Move>)
    ensures r == ReorderedCaptures(moves, bestMove)
  {
    var principal, remaining := [], [];
    for i := 0 to |moves|
      invariant (principal, remaining) == SplitCaptures(moves[..i], bestMove)
    {
      var move := moves[i];
      assert moves[..i + 1][..i] == moves[..i];
      if |principal| == 0 && move == bestMove {
        principal := principal + [move];
      } else {
        remaining := remaining + [move];
      }
    }
    assert moves[..|moves|] == moves;
    SplitCapturesSpec(moves, bestMove);
    r := principal + remaining;
  }

  /** The game context the orderings read: the principal variation and the killers of each ply. */
  datatype Game = Game(bestLine: seq<seq<Move>>, killers: seq<Killers>)
  {
    predicate HasPly(ply: int) {
      |bestLine| > 0 && 0 <= ply < |bestLine[0]| && 0 <= ply < |killers|
    }
  }

  /** `Moves`: the candidates of every own piece in board order, reordered for the search. */
  method AllMoves(p: Position, game: Game, ply: int) returns (moves: seq<Move>)
    requires game.HasPly(ply)
    ensures moves == Reordered(MovesFrom(p, 0), game.bestLine[0][ply], game.killers[ply])
  {
    moves := ScanMoves(p);
    moves := ReorderMoves(moves, game.bestLine[0][ply], game.killers[ply]);
  }

  /** The board scan of `Moves`: the candidates of every own piece, square by square. */
  method ScanMoves(p: Position) returns (moves: seq<Move>)
    ensures moves == MovesFrom(p, 0)
  {
    moves := ScanMovesFrom(p, 0);
  }

  /** The scan of `Moves` over the squares from `start` up to h8, in board order. */
  method ScanMovesFrom(p: Position, start: nat) returns (moves: seq<Move>)
    requires start <= 64
    ensures moves == MovesFrom(p, start)
  {
    moves := [];
    ghost var all := MovesFrom(p, start);
    assert moves + all == all;
    for square := start to 64
      invariant moves + MovesFrom(p, square) == all
    {
      moves := ScanMovesSquare(p, square, moves);
    }
    assert moves + [] == moves;
  }

  /** One square of the scan of `Moves`: the piece's candidates are appended when it is an own piece. */
  method ScanMovesSquare(p: Position, square: Square, moves: seq<Move>) returns (r: seq<Move>)
    ensures r + MovesFrom(p, square + 1) == moves + MovesFrom(p, square)
  {
    var piece := p.pieces[square];
    MovesFromStep(p, square);
    r := moves;
    if piece != Empty && piece.color == p.color {
      var candidates := PossibleMoves(p, square, piece);
      AppendAssoc(moves, candidates, MovesFrom(p, square + 1));
      r := moves + candidates;
    }
  }

  /** The board scan of `Captures`: the capture candidates of every own piece, square by square. */
  method ScanCaptures(p: Position) returns (moves: seq<Move>)
    ensures moves == CapturesFrom(p, 0)
  {
    moves := ScanCapturesFrom(p, 0);
  }

  /** The scan of `Captures` over the squares from `start` up to h8, in board order. */
  method ScanCapturesFrom(p: Position, start: nat) returns (moves: seq<Move>)
    requires start <= 64
    ensures moves == CapturesFrom(p, start)
  {
    moves := [];
    ghost var all := CapturesFrom(p, start);
    assert moves + all == all;
    for square := start to 64
      invariant moves + CapturesFrom(p, square) == all
    {
      moves := ScanCapturesSquare(p, square, moves);
    }
    assert moves + [] == moves;
  }

  /** One square of the scan of `Captures`: the piece's candidates are appended when it is an own piece. */
  method ScanCapturesSquare(p: Position, square: Square, moves: seq<Move>) returns (r: seq<Move>)
    ensures r + CapturesFrom(p, square + 1) == moves + CapturesFrom(p, square)
  {
    var piece := p.pieces[square];
    CapturesFromStep(p, square);
    r := moves;
    if piece != Empty && piece.color == p.color {
      var candidates := PossibleCaptures(p, square, piece);
      AppendAssoc(moves, candidates, CapturesFrom(p, square + 1));
      r := moves + candidates;
    }
  }

  /**
   * `Captures`: the capture candidates of every own piece in board order,
   * with the best move lifted to the front only when it is a non-zero capture.
   */
  method AllCaptures(p: Position, game: Game, ply: int) returns (moves: seq<Move>)
    requires game.HasPly(ply)
    ensures var best := game.bestLine[0][ply];
            moves == if best != NoMove && best.IsCapture() then ReorderedCaptures(CapturesFrom(p, 0), best)
                     else CapturesFrom(p, 0)
  {
    moves := ScanCaptures(p);
    var bestMove := game.bestLine[0][ply];
    if bestMove != NoMove && bestMove.IsCapture() {
      moves := ReorderCaptures(moves, bestMove);
    }
  }
}
