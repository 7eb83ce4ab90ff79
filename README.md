# Donna move generation and king safety, modelled in Dafny

This project models two parts of the Donna chess engine.

**Move generation and ordering** (`generate.go`):
- The per-ply move list: a 256-slot buffer with a head and a tail cursor.
- The generators that fill it: pawn pushes and promotions, knight to queen steps, king steps and castles, and captures-only generation.
- The slice-building generators `possibleMoves` and `possibleCaptures`, and the top-level `Moves` and `Captures`.
- The two orderings `reorderMoves` and `reorderCaptures`.
- The pure helpers `pawnMove`, `pawnPromotion` and `isEnpassant`.

**King safety** (`evaluate_safety.go`):
- The king placement bonus.
- The pawn-shield penalty.

Squares run from A1 = 0 to H8 = 63, rank-major. A bitboard is a `set<Square>`; popping or taking "first" yields the lowest square.

The files are:
- `board.dfy` (module `Board`): colours, pieces, squares, geometry, bitboards as sets, and the read-only `Position`.
- `moves.dfy` (module `Moves`): the move value and its constructors.
- `emission.dfy` (module `Emission`): what each generator emits, as functions over the position, plus their properties. This covers `pawnMove`, `pawnPromotion` and `isEnpassant`.
- `movegen.dfy` (module `MoveGen`): the `MoveList` class over an `array<Move>`, and `MoveLists`, which stands in for the engine's global array of lists. Each generator is a method. Each method is proved to append exactly the sequence its specification function defines, and to leave the rest of the buffer alone.
- `ordering.dfy` (module `Ordering`): `Moves`, `Captures`, `possibleMoves`, `possibleCaptures`, `reorderMoves` and `reorderCaptures` as loops. Each loop is proved against a declarative ordering. The ordering's properties are proved as lemmas: permutation, principal move first, bucket order, stability within buckets, and the killer tie-break.
- `safety.dfy` (module `Safety`): `kingShieldScore` and `analyzeKingSafety` on an `Evaluator` class with `midgame` and `endgame` fields. The properties proved include the penalty's bounds, exactly when it is zero, and its early exits.

Where the code's comments and its statements differ, the model keeps both and says which one each member follows:
- **Move equality.** `reorderMoves` and `reorderCaptures` compare moves with `==` (generate.go:236, 262), so two moves are equal only when every encoded field agrees. The model compares every field.
- **Which shield pawn is measured.** The comment at evaluate_safety.go:42-44 says each shield file's closest same-colour pawn is measured. Line 48 measures the file's lowest square (`shield.first()`), which for Black is the pawn farthest from the king. `Safety.ShieldPenalty` with the pick `FirstPawn` is the code as written; `Safety.WhitePicksAgree` and `Safety.BlackShieldCounterexample` show where it agrees with the comment and where it does not. The `Evaluator` methods use the corrected pick `ClosestPawn`. See "Findings".
- **When the shield penalty is zero.** `Safety.ShieldPenaltyZero` states it for the corrected pick: the penalty is zero iff the nearest pawn of every shield file stands within one rank of the king. For the code as written this carries over to White only (`Safety.WhitePicksAgree`); for Black it fails (`Safety.BlackShieldCounterexample`).

## Model

| member | source | states |
|---|---|---|
| Board.Mirror | evaluate_safety.go:10 | `square ^ 56` keeps the file and mirrors the rank |
| Board.MirrorInvolution | evaluate_safety.go:10-13 | mirroring twice gives back the square |
| Board.FlipRow | evaluate_safety.go:35-39 | flipping by the opposite colour gives the rank counted from the colour's own back rank |
| Board.First | evaluate_safety.go:48 | `first()`/`pop()` yields a set square no greater than any other |
| Board.Last | evaluate_safety.go:48 | the highest set square, which the corrected shield uses for Black |
| Board.Squares | generate.go:62-66 | the pop loop visits every set square exactly once |
| Board.SquaresAscending | generate.go:62-66 | the pop loop visits squares in strictly ascending order |
| Emission.IsEnpassant | generate.go:302-313 | the edge-file special cases mean exactly "an enemy pawn on an adjacent square of the same rank" |
| Emission.PawnMove | generate.go:280-292 | a pawn move is the plain move re-tagged: non-plain iff from relative rank 1 to 3, en passant iff additionally an enemy pawn is adjacent, never a castle |
| Emission.PawnPromotion | generate.go:294-300 | the four moves are the plain move promoted to queen, rook, bishop and knight, in that order, each a promotion |
| Emission.PawnEmission | generate.go:67-80 | a push off the back ranks emits one `pawnMove`; onto a back rank it emits four promotions, queen, rook, bishop, knight in that order |
| Emission.TargetMovesMember | generate.go:65-81 | a move is emitted for a piece iff it is emitted for one of its targets |
| Emission.OneMovePerTarget | generate.go:92-116 | knight to queen steps and king steps emit exactly one move per target, in target order |
| Emission.StepCount | generate.go:86-100 | the knight to queen generator emits as many moves as the pieces have targets |
| Emission.PawnCount | generate.go:59-84 | a pawn emits one move per target plus three per promotion target |
| Emission.KingMovesCastle | generate.go:102-120 | only the lowest king square is used; each emitted move starts there; it is a castle iff the king is on its home square and moves two squares, otherwise a plain move |
| Emission.EmitFromTo | generate.go:132-154 | every emitted move goes from the popped square to the popped target |
| Emission.CaptureEmit | generate.go:137-151 | captures-only generation emits for a target iff it is occupied or is the non-zero en-passant square |
| Emission.CaptureTargets | generate.go:132-154 | every capture candidate lands on an occupied target or on the en-passant square; every occupied target yields a candidate |
| Emission.CaptureEmitCaptures | generate.go:137-150 | for one target, captures-only generation emits captures only, the en-passant move onto the empty square included |
| Emission.CapturesAreCaptures | generate.go:132-154 | every capture candidate of a piece is a capture |
| Emission.CaptureEmitIsMoveEmit | generate.go:186-230 | per target, what `possibleCaptures` emits is also emitted by `possibleMoves` when en passant is off the back ranks |
| Emission.CapturesAreMoves | generate.go:186-230 | a piece's capture candidates are among its full candidates |
| Emission.CapturesFromAreMovesFrom | generate.go:157-183 | the board scan of `Captures` yields a subset of that of `Moves` |
| Emission.CapturesFromAreCaptures | generate.go:123-130 | the board scan of `Captures` yields captures only |
| MoveGen.MoveList.constructor | generate.go:22-31 | a list slot starts zeroed: every move is `NoMove` and both cursors are 0 |
| MoveGen.MoveList.NextMove | generate.go:42-49 | a drained list returns `NoMove` and keeps its head; otherwise it returns the head move and advances, and the pending moves lose exactly that move |
| MoveGen.MoveList.Append | generate.go:68-69 | one write at the tail, which advances by one; later slots are untouched |
| MoveGen.MoveList.GenerateMoves | generate.go:51-57 | appends exactly the pawn, then knight to queen, then king moves of the side to move |
| MoveGen.MoveList.PawnMoves | generate.go:59-84 | appends exactly the emission of every pawn over its targets, lowest pawn first |
| MoveGen.MoveList.KbrqMoves | generate.go:86-100 | appends exactly the steps of knights, bishops, rooks and queens, in that kind order |
| MoveGen.MoveList.EmitKind | generate.go:88-97 | the inner pop loop appends exactly the steps of every piece of one kind, lowest square first |
| MoveGen.MoveList.KingMoves | generate.go:102-120 | appends exactly the king's steps and castles |
| MoveGen.MoveList.EmitTargets | generate.go:65-81 | the target pop loop appends what is emitted for each target, in ascending target order |
| MoveGen.MoveList.EmitTarget | generate.go:67-80 | one loop body appends exactly what the generator emits for one target |
| MoveGen.MoveList.AppendFour | generate.go:71-79 | four consecutive tail writes append the four moves in order |
| MoveGen.MoveList.AppendPromotions | generate.go:143-146 | the promotion loop appends queen, rook, bishop and knight promotions in order |
| MoveGen.MoveList.GenerateCaptures | generate.go:123-130 | appends exactly the capture candidates of every own piece, in board order |
| MoveGen.MoveList.ScanCaptures | generate.go:124-128 | the board scan from any square on appends exactly the capture candidates of the own pieces from there up |
| MoveGen.MoveList.ScanSquare | generate.go:124-127 | one square of the scan appends the captures of an own piece and nothing otherwise |
| MoveGen.MoveList.PossibleCaptures | generate.go:132-154 | appends exactly the capture candidates of one piece |
| MoveGen.MoveLists.constructor | generate.go:31 | one list per ply, pairwise distinct with distinct buffers, each bound to the position and its ply with both cursors at 0 and every move `NoMove` |
| MoveGen.MoveLists.StartMoveGen | generate.go:33-40 | binds the ply's slot to the position, clears its buffer and cursors, and changes no other slot |
| Ordering.Filter | generate.go:235-247 | a bucket holds only moves of the input that belong to it |
| Ordering.IndexOf | generate.go:260-262 | the first occurrence, which is the one `len(principal) == 0` admits |
| Ordering.Drop | generate.go:260-266 | removing the principal move takes exactly one copy of it |
| Ordering.SwapKillers | generate.go:248-250 | the killer tie-break keeps length and contents |
| Ordering.FilterPartition | generate.go:235-247 | the four buckets together hold every non-principal move exactly as often as the input |
| Ordering.FilterCount | generate.go:235-247 | a bucket holds each move of its own kind as often as the input does, and no other move |
| Ordering.RestSnoc | generate.go:236-237 | only the first occurrence of a non-zero best move becomes principal; later copies go to the buckets |
| Ordering.PartitionSpec | generate.go:233-247 | placing the moves one at a time yields the principal move and, per bucket, the moves of that bucket in input order |
| Ordering.PlaceStep | generate.go:236-246 | placing one more move puts it in its own bucket, or makes it principal when it is the first copy of a non-zero best move |
| Ordering.BucketsPermutation | generate.go:248-254 | the bucketed output is a permutation of the non-principal moves |
| Ordering.ReorderedPermutation | generate.go:232-255 | `reorderMoves` returns a permutation of its input |
| Ordering.ReorderedPrincipalFirst | generate.go:236-254 | a non-zero best move that occurs in the input comes out first |
| Ordering.ReorderedBucketOrder | generate.go:238-254 | after the principal move: captures, then promotions, then killers, then the rest |
| Ordering.ReorderedStable | generate.go:233-254 | each bucket keeps input order, except the killer bucket, which differs only by the tie-break |
| Ordering.ReorderedTail | generate.go:254 | after the principal move the output is the four buckets in order |
| Ordering.BucketsStable | generate.go:248-254 | filtering the bucketed output on one bucket gives that bucket of the input, the killers tie-broken |
| Ordering.KillerSwapOnlyOnTie | generate.go:248-250 | the killers trade places only when there are two and the first is the second slot's move |
| Ordering.ReorderedCapturesOrder | generate.go:257-269 | a permutation with the first copy of the best move first and the rest in input order; without the best move, the input unchanged |
| Ordering.SplitCapturesSpec | generate.go:260-266 | the loop of `reorderCaptures` makes only the first copy of the best move principal, all other moves remaining, in input order |
| Ordering.PossibleMoves | generate.go:186-206 | one move per target, or the four promotions when a pawn reaches a back rank |
| Ordering.PossibleCaptures | generate.go:210-230 | the capture candidates of one piece |
| Ordering.CollectTargets | generate.go:210-230 | the target pop loop of both slice builders collects each target's moves in ascending target order |
| Ordering.CollectTarget | generate.go:214-228 | one loop body, including the promotion loop |
| Ordering.SplitMoves | generate.go:233-247 | the loop of `reorderMoves` fills the five slices as the one-at-a-time placement does |
| Ordering.ReorderMoves | generate.go:232-255 | returns the declarative order: principal, captures, promotions, killers with the tie-break, remaining |
| Ordering.ReorderCaptures | generate.go:257-269 | returns the best move's first copy first, the rest in input order |
| Ordering.ScanMoves | generate.go:157-161 | the candidates of every own piece, in board order |
| Ordering.ScanMovesFrom | generate.go:158-162 | the scan from any square on collects the candidates of the own pieces from there up, in board order |
| Ordering.ScanMovesSquare | generate.go:158-160 | one square of the scan of `Moves` |
| Ordering.AllMoves | generate.go:157-166 | `Moves` is the reordering of the board-order candidates by the ply's best move and killers |
| Ordering.ScanCaptures | generate.go:168-172 | the capture candidates of every own piece, in board order |
| Ordering.ScanCapturesFrom | generate.go:169-173 | the scan from any square on collects the capture candidates of the own pieces from there up, in board order |
| Ordering.ScanCapturesSquare | generate.go:169-171 | one square of the scan of `Captures` |
| Ordering.AllCaptures | generate.go:168-183 | `Captures` reorders only when the best move is a non-zero capture; otherwise board order |
| Safety.ShieldFiles | evaluate_safety.go:40 | the shield spans exactly the board files at most one file from the king's: two files on an edge, three otherwise |
| Safety.ShieldPawn | evaluate_safety.go:48 | the measured pawn is in the file; as written, the lowest square; corrected, the pawn nearest the colour's back rank |
| Safety.KingInShieldZoneRow | evaluate_safety.go:35-38 | the `> H3` cut-off means the king stands beyond its third rank, for either colour |
| Safety.ShieldPenalty | evaluate_safety.go:21-58 | `kingShieldScore`, as written with the pick `FirstPawn` and corrected with `ClosestPawn`: no penalty when the king is missing, on its home square, facing a weak opponent, or beyond its third relative rank |
| Safety.FileTerm | evaluate_safety.go:47-54 | a file without a pawn costs the missing penalty; otherwise the measured pawn costs the distance penalty per rank between it and the king, counted from the colour's own side, once they are more than one rank apart |
| Safety.FileTermRange | evaluate_safety.go:47-54 | one file costs between zero and the larger of the missing penalty and seven ranks' distance penalty |
| Safety.FilesPenaltyRange | evaluate_safety.go:46-55 | the summed files cost between zero and that bound per file |
| Safety.ShieldPenaltyRange | evaluate_safety.go:21-58 | with non-positive constants the shield penalty is non-negative and at most three files' worth |
| Safety.NearestPawnShields | evaluate_safety.go:47-51 | a file with pawns is shielded iff its nearest pawn is within one rank of the king |
| Safety.FileTermZero | evaluate_safety.go:47-54 | a file costs nothing iff it is shielded |
| Safety.FilesPenaltyZero | evaluate_safety.go:46-55 | the files cost nothing iff every file in the range is shielded |
| Safety.ShieldPenaltyZero | evaluate_safety.go:21-58 | for a king that has left home against a strong opponent, the penalty is zero iff each file within one of the king's file is shielded |
| Safety.WhitePicksAgree | evaluate_safety.go:48 | for White the lowest pawn is the nearest one, so the code as written is right for White |
| Safety.BlackShieldCounterexample | evaluate_safety.go:46-51 | Black king g8 behind f7, g7, h7 with an extra g5 pawn is charged 3 ranks' distance as written and nothing when the nearest pawn is measured |
| Safety.CounterexampleFileG | evaluate_safety.go:47-51 | as written, the g-file with pawns on g7 and g5 measures g5 and is charged three ranks; the nearest-pawn pick measures g7 and charges nothing |
| Safety.Evaluator.constructor | evaluate_safety.go:7-19 | the evaluator starts with both scores at zero |
| Safety.Evaluator.KingShieldScore | evaluate_safety.go:21-58 | the loop computes the shield penalty, measuring the nearest pawn per file |
| Safety.Evaluator.ScanShield | evaluate_safety.go:46-55 | the file loop sums the penalty of each file from `from` to `to` |
| Safety.Evaluator.ShieldFile | evaluate_safety.go:47-54 | one loop body adds the file's penalty |
| Safety.Evaluator.AnalyzeKingSafety | evaluate_safety.go:7-19 | both scores gain the placement term, White's mirrored bonus less Black's; only the midgame gains White's shield penalty minus Black's (nearest-pawn pick) |
| Safety.PlacementAntisymmetric | evaluate_safety.go:10-15 | swapping the kings' colours and mirroring the board negates the placement term |

## Left out

- Move encoding: a move is a record here, not the engine's packed integer. `NewMove`, `NewCastle`, `NewEnpassant`, `NewPawnJump`, `promote` and `isPawnPromotion` are not part of this model. Stand-ins record their arguments, the piece on the origin and the captured piece. The captured piece is the one on the destination, or the opponent's pawn when the destination is the non-zero en-passant square, so the en-passant capture counts as a capture.
- Board geometry is defined outside the modelled files; stand-ins follow the engine's conventions. `Row(s)` is `s / 8` and `Col(s)` is `s % 8`, the two halves of `Coordinate`. `RelRow(s, c)` is the rank counted from `c`'s back rank. `Flip(c, s)` mirrors the square (`s ^ 56`) for White and leaves it for Black. A bitboard is the set of its set squares: `first()` and `pop()` take the lowest, `bit[s]` is `{s}`.
- `maskFile` is defined outside the modelled files. `Safety.FileMask` stands in for it as the set of the file's squares.
- `MoveEx.score` and the `step` field of `MoveList`: nothing in the modelled code reads or writes them. The score sorts are commented out in the source.
- Logging calls (`Log`) are not modelled.
- Legality of moves: the generators are pseudo-legal. The target bitboards, the king home squares and the evaluation tables are given as inputs, not computed.
- `strongEnough` is not part of this model. Its answer per colour is a field of the `Evaluator`.
- The global array of move lists is modelled as a `MoveLists` object with one slot per ply.
- Ply indices out of range: `StartMoveGen` indexes the list array by ply, and `Moves` and `Captures` index the best line and the killers by ply (generate.go:34, 163, 174). Out of range the engine panics. Here `MoveGen.MoveLists.StartMoveGen` requires `0 <= ply < |slots|`, and `Ordering.AllMoves` and `Ordering.AllCaptures` require `Game.HasPly(ply)`.
- The 256-slot capacity: a generator that would overflow makes the engine index out of range. Here the room needed is a precondition of each generator.
- Ordering.CollectTargets: requires the emitter to be one of the two slice-building generators, because those are the only callers.
- Safety.ShieldPenaltyRange: holds only when both penalty constants are non-positive. The constants are defined outside the modelled files and are inputs here, so their sign is an assumption.
- Safety.ShieldPenaltyZero: holds only when both penalty constants are negative, an assumption for the same reason.
- Go's `int` is 64 bits. Scores are unbounded integers here, since no computation in the core comes near the limit.

## Findings

| source | as written | input that shows it | evidently intended | confidence | as-written member | corrected member |
|---|---|---|---|---|---|---|
| evaluate_safety.go:48 | The shield measures the lowest-numbered pawn of each file. For Black that is the pawn farthest from the king. | Black king on g8 (home e8), Black pawns f7, g7, h7 and g5, White strong enough. The g-file is charged 3 × `-shieldDistance.midgame` although g7 stands next to the king. | Measure the pawn nearest the colour's back rank: the lowest square for White, the highest for Black. | high; not executed | Safety.BlackShieldCounterexample | Safety.ShieldPenaltyZero |
