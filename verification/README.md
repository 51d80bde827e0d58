# A verified model of a small C++ chess program

This project models the core of a console chess program written in C++:
the board and its state transitions (`Board` in `src/core/board.cpp`), the
pseudo-legal move generator (`src/core/moveGen.cpp`), the check detector,
the legal-move filter with checkmate and stalemate, the Forsyth-Edwards
serialiser `toFEN` and the move-text parsers, the coordinate text of a move
(`src/core/move.cpp`), the square helpers (`src/core/utils.hpp`), the two
helpers of `src/engine/piece_tables.hpp`, and the integer parts of the
search engine (`src/engine/engine.cpp`): piece values, level-to-depth
mapping, material evaluation, move-ordering scores, the sort of
`orderMoves`, the score of a node without legal moves, and the bookkeeping
of `getBestMove`.

The model follows the code as it is written, not the chess rules it aims at:

- `makeMove` dispatches on the exact flag value. A move carrying two flags
  (capture and promotion, say) changes nothing. Promotion always makes a
  queen. Castling onto a black target square puts a white king and a white
  rook on the board.
- The move generator emits pawn moves only. `addKnightMoves` is an empty
  stub, and every other kind of piece is skipped. No move is ever flagged
  promotion, en passant or castling.
- In `isSquareAttacked` the pawn, knight and king tests can never succeed,
  so check detection sees rook, bishop and queen attacks only. This is
  proved (`Attacks.OnlySlidingAttacks`). The pawn tests compare files
  computed with truncating `%`. The knight and king tests ask one square to
  hold two different pieces.
- `UpdateCastlingRights` pairs a1 (square 0) with the white king side and
  h1 with the queen side. `updateGameState` runs after `makeMove` has
  emptied `from`, so a king that moves does not lose its rights.
- C++ `/` and `%` truncate toward zero. The model writes them out as
  `Utils.TruncDiv` and `Utils.TruncMod`, and uses them for every square,
  on the board or not.

The design of the program aims at the full rules of chess: knight, slider,
king and castling moves, en passant, capture with promotion, and knight
attacks checked against wrap-around. Where that design and the code
differ, the model follows the code.

Layout, one module per file:

| file | module | models |
|---|---|---|
| utils.dfy | `Utils` | `src/core/utils.hpp` |
| types.dfy | `Types` | the piece enum and castling rights of `board.hpp`; the flags and `Move` of `move.hpp` |
| move_text.dfy | `MoveText` | `Move::toString` |
| move_gen.dfy | `MoveGen` | `moveGen.cpp`, as a specification `PseudoLegal` and the methods over the square array |
| position.dfy | `Positions` | the position as a value; `setStartPos`, `makeMove`, `UpdateCastlingRights`, `updateGameState` |
| attacks.dfy | `Attacks` | `findking`, `isSquareAttacked`, `isCheck` |
| legality.dfy | `Legality` | `generateLegalMoves`, `isCheckmate`, `isStalemate` |
| notation.dfy | `Notation` | `EnumToChar`, `toFEN`, `parseSquare`, `parseMove`, `findMatchingMove`, `IsMoveLegal` |
| board.dfy | `ChessBoard` | class `Board`: a 64-entry array plus the scalar fields, changed in place |
| piece_tables.dfy | `PieceTables` | `getPieceType`, `flipSquare` |
| engine.dfy | `Engine` | class `ChessEngine` and the integer parts of the engine |

The class `ChessBoard.Board` performs the transitions of the value model in
`Positions`, `Attacks`, `Legality` and `Notation`. Each of its methods is
proved equal to the matching function on `View()`, the board read as a
`Position`. The properties of the game are then proved once, as lemmas
about those functions.

## Model

| member | source | states |
|---|---|---|
| Utils.TruncDiv | src/core/utils.hpp:3-5 | C++ division rounds toward zero: the quotient has the dividend's sign, and the divisor times it is the multiple of the divisor nearest the dividend on the side of zero |
| Utils.TruncMod | src/core/utils.hpp:7-9 | C++ remainder: takes the sign of the dividend, lies strictly within the divisor, and rebuilds the dividend with TruncDiv |
| Utils.FileChar | src/core/utils.hpp:15-17 | the file character of an on-board square is one of 'a'..'h' |
| Utils.RankChar | src/core/utils.hpp:19-21 | the rank character of an on-board square is one of '1'..'8' |
| Utils.RankFileOnBoard | src/core/utils.hpp:3-9 | on the board, rank and file lie in 0..7 and rebuild the square as rank*8+file |
| Utils.RankFileTruncate | src/core/utils.hpp:3-9 | for every integer, rank*8+file rebuilds the square, the file has the square's sign and lies in -7..7, and the rank's magnitude is the square's magnitude divided by 8 |
| Utils.ValidRankIffOnBoard | src/core/utils.hpp:11-25 | ValidRank accepts exactly the on-board squares, for every integer, negative ones included |
| Utils.SquareCharsDetermineSquare | src/core/utils.hpp:15-21 | two on-board squares with the same file and rank characters are the same square |
| Types.FlagBitsDistinct | src/core/move.hpp:4-11 | each single-bit flag holds its own bit and no other; QUIET holds none |
| Types.SetOrderBit | src/core/move.hpp:6-10 | adding a clear CAPTURE, PROMOTION or CASTLING bit to any flags word sets that bit and leaves the other two unchanged |
| MoveText.ToString | src/core/move.cpp:4-16 | the text is from-file, from-rank, to-file, to-rank, plus 'q' exactly when the PROMOTION bit is set |
| MoveText.ToStringIgnoresOtherFields | src/core/move.cpp:4-16 | the captured piece, the promotion piece and the other flag bits do not reach the text |
| MoveText.ToStringOnBoard | src/core/move.cpp:4-16 | for on-board squares the text uses 'a'..'h' and '1'..'8', and equal texts mean equal squares |
| MoveGen.IsWhite | src/core/moveGen.cpp:4-6 | the six listed comparisons amount to W_PAWN <= piece <= W_KING |
| MoveGen.IsBlack | src/core/moveGen.cpp:8-11 | the six listed comparisons amount to B_PAWN <= piece <= B_KING |
| MoveGen.ColoursDisjoint | src/core/moveGen.cpp:4-11 | no piece is both white and black, and EMPTY is neither |
| MoveGen.DiagonalStepFile | src/core/moveGen.cpp:65-86 | the file guards of the captures hold exactly when the capture changes the file by one, so an edge pawn never wraps |
| MoveGen.PushesIff | src/core/moveGen.cpp:57-63 | a move is among the forward moves of a pawn iff it is a single push onto an empty square or a double push from the home rank over two empty squares |
| MoveGen.CaptureOntoIff | src/core/moveGen.cpp:65-70 | a move is the capture toward one side iff it steps diagonally forward by one file onto an enemy piece and records that piece |
| MoveGen.PawnMovesIff | src/core/moveGen.cpp:43-89 | the moves appended for one pawn are exactly the moves of the generated shape starting on that square |
| MoveGen.PieceMovesIff | src/core/moveGen.cpp:16-38 | what one square contributes: pawn moves for a pawn of the mover, nothing for any other piece |
| MoveGen.PseudoLegalUpToIff | src/core/moveGen.cpp:14-40 | after scanning squares 0..n-1 the list holds exactly the generated-shape moves from those squares |
| MoveGen.PseudoLegalIff | src/core/moveGen.cpp:14-89 | the generator's output is exactly the set of generated-shape moves; no move is a promotion, en passant or castling |
| MoveGen.PseudoLegalUpToAscending | src/core/moveGen.cpp:14-40 | the partial scan lists moves in ascending origin order, all with origin below n |
| MoveGen.PseudoLegalAscending | src/core/moveGen.cpp:14-40 | the generator lists moves in ascending order of their origin square |
| MoveGen.PseudoLegalFlags | src/core/moveGen.cpp:43-89 | every generated move is on the board and carries exactly one of QUIET, DOUBLE_PAWN_PUSH, CAPTURE |
| MoveGen.PawnMovesAppended | src/core/moveGen.cpp:55-88 | the three groups of push_back calls together append the moves of the pawn |
| MoveGen.AddPawnMoves | src/core/moveGen.cpp:43-89 | the method appends exactly the pawn's moves to the list it is given |
| MoveGen.AddWhitePawnMoves | src/core/moveGen.cpp:55-70 | the white branch appends exactly the white pawn's moves |
| MoveGen.AddBlackPawnMoves | src/core/moveGen.cpp:71-87 | the black branch appends exactly the black pawn's moves |
| MoveGen.AddKnightMoves | src/core/moveGen.cpp:92-94 | the stub returns the list unchanged |
| MoveGen.GenPseudoLegal | src/core/moveGen.cpp:14-40 | the loop over the 64 squares computes PseudoLegal of the array's contents |
| Positions.HomeSquaresValid | src/core/board.cpp:45-82 | the two groups of 16 squares that setStartPos writes hold valid pieces |
| Positions.SetStartPos | src/core/board.cpp:45-82 | writes ranks 1, 2, 7 and 8 of the standard placement and grants all four rights; squares 16..47 and the other fields keep their values |
| Positions.ApplyMove | src/core/board.cpp:235-287 | makeMove keeps side, en-passant square and clocks, never grants a right, writes only the squares it touches, and keeps the pieces valid |
| Positions.RelocationMovesPiece | src/core/board.cpp:237-244 | for QUIET, DOUBLE_PAWN_PUSH and CAPTURE the piece moves to `to`, `from` is emptied, the rights stay |
| Positions.PromotionMakesQueen | src/core/board.cpp:245-254 | a promotion puts a white queen if a white pawn moved, else a black queen, whatever promotion piece was asked for |
| Positions.CastlingMovesWhitePieces | src/core/board.cpp:255-286 | castling puts a white king on `to` and a white rook beside it for all four targets, empties both origins, and drops both rights of the target's side |
| Positions.OtherMovesChangeNothing | src/core/board.cpp:235-287 | a combined flag value, EN_PASSANT, or castling onto another square leaves the position unchanged |
| Positions.CastlingAfter | src/core/board.cpp:291-305 | each right survives iff it was held, that colour's king is not on `from`, and its corner is neither `from` nor `to` (a1 for white king side) |
| Positions.EnPassantAfter | src/core/board.cpp:101-109 | -1 unless the flag is exactly DOUBLE_PAWN_PUSH; otherwise a square one rank from `to`, below it exactly when a white pawn stands there; for a white push two ranks up or a black push two ranks down it is the square the pawn passed over |
| Positions.GameStateAfter | src/core/board.cpp:98-122 | keeps the squares, never grants a right, flips the side, advances the move number after black, resets the clock iff a capture or a pawn on `to`, else adds one |
| Positions.Play | src/ChessGameLoop.cpp:182-183 | makeMove then updateGameState: the side flips, no right is granted, the pieces stay valid |
| Positions.PlayIgnoresMovingKing | src/core/board.cpp:291-305 | because the king has left `from` when the rights are updated, a king move costs no right; only the corners do |
| Positions.GeneratedMoveMovesPawn | src/core/board.cpp:237-244 | a generated move puts the mover's pawn on `to`, empties `from` and leaves the rights |
| Positions.DoublePushRecordsPassedSquare | src/core/board.cpp:101-109 | a generated double push records the square the pawn passed over |
| Positions.GeneratedMoveResetsClock | src/core/board.cpp:111-116 | every generated move resets the half-move clock, and only a double push sets an en-passant square |
| Attacks.KingFrom | src/core/board.cpp:124-133 | the linear search returns the first index holding the king, or -1 iff there is none |
| Attacks.KingSquare | src/core/board.cpp:124-133 | findking: the lowest square holding that colour's king, or -1 exactly when it is absent |
| Attacks.SmallNegativeFile | src/core/board.cpp:430-431 | for squares -7..-1 the truncating file is the square itself and the rank is 0 |
| Attacks.PawnTestsNeverFire | src/core/board.cpp:436-448 | the four pawn tests never succeed: the file of an attacker at ±7/±9 never differs by the one they ask for |
| Attacks.KnightAndKingTestsNeverFire | src/core/board.cpp:450-459 | the knight tests, and the king tests at lines 523-532, ask one square to hold two pieces and never succeed |
| Attacks.InCheck | src/core/board.cpp:135-140 | a side is in check only when its king is on the board, and then the lowest square holding that king is attacked by the other side |
| Attacks.OnlySlidingAttacks | src/core/board.cpp:435-535 | isSquareAttacked is true iff a rook-line or diagonal ray reaches an attacker's slider |
| Attacks.Line | src/core/board.cpp:468-521 | the squares a ray visits, as long as the wrap guard holds, all on the board |
| Attacks.SliderIsAttacker | src/core/board.cpp:482-485 | a rook, bishop or queen of the attacker passes the attacker-colour test |
| Attacks.FirstOccupiedCons | src/core/board.cpp:475-491 | an empty square passes the question to the rest of the ray; an occupied one answers it |
| Attacks.RayIffFirstOccupied | src/core/board.cpp:468-521 | a ray loop succeeds iff the first occupied square of its line holds an attacker's slider |
| Attacks.RayIffLine | src/core/board.cpp:468-521 | the k-th ray loop and the k-th line of the same kind agree |
| Attacks.SlidingIffLine | src/core/board.cpp:466-521 | the four rays of a kind succeed iff one of the four lines has a slider first |
| Attacks.AttackedIffFirstOccupied | src/core/board.cpp:435-535 | isSquareAttacked is true iff on one of the eight lines the first occupied square holds an attacker's slider of the matching kind |
| Attacks.StepGeometry | src/core/board.cpp:471-502 | a ray takes one more step exactly when the next file and rank stay on the board, and then they move by the direction's steps |
| Attacks.LineLength | src/core/board.cpp:466-521 | a ray runs to the edge of the board: its length is the number of steps to the edge |
| Attacks.LineCoordinates | src/core/board.cpp:466-521 | the i-th square of a ray lies i+1 file and rank steps from the start |
| Attacks.GeometricLineCons | src/core/board.cpp:466-521 | a square one step from the start, followed by a line from it, is a line from the start |
| Attacks.HorizontalRayKeepsRank | src/core/board.cpp:471-473 | the horizontal wrap guard keeps a horizontal ray on the rank of its square |
| Legality.PseudoLegalApplicable | src/core/board.cpp:142-148 | every generated move indexes only board squares, so makeMove on the copy is defined |
| Legality.KeepLegal | src/core/board.cpp:146-153 | the filter keeps exactly the moves after which the mover is not in check, and no more than it was given |
| Legality.KeepLegalStep | src/core/board.cpp:146-153 | one more loop iteration appends the move iff it keeps the king safe |
| Legality.KeepLegalKeepsOrder | src/core/board.cpp:146-153 | a list sorted by origin square stays sorted through the filter |
| Legality.KeepLegalAppend | src/core/board.cpp:146-153 | the filter of a concatenation is the concatenation of the filters, and one move is kept iff it keeps the king safe: the result is the subsequence of safe moves in their original order |
| Legality.LegalMoves | src/core/board.cpp:142-156 | a move is legal iff it is pseudo-legal and leaves the mover's king unattacked |
| Legality.LegalMovesIff | src/core/board.cpp:142-156 | a move is legal iff it has the generated shape and keeps the king safe; legal moves come in ascending origin order |
| Legality.MateAndStalemateExclusive | src/core/board.cpp:158-167 | checkmate and stalemate never hold together, and either means that no move is legal |
| Legality.NoKingNoMate | src/core/board.cpp:135-140 | with no king of the side to move there is no check and so no mate |
| Notation.EnumToChar | src/core/board.cpp:9-39 | one character exactly for a valid piece; "." for EMPTY, lower case for black, upper case for white |
| Notation.EnumToCharDistinct | src/core/board.cpp:9-39 | different pieces get different letters, and a white letter is the upper case of the black one |
| Notation.NatToString | src/core/board.cpp:224-229 | decimal digits, at least one, no leading zero |
| Notation.NatToStringRoundTrip | src/core/board.cpp:224-229 | the digits read back to the number |
| Notation.IntToString | src/core/board.cpp:224-229 | a minus sign exactly for negative values, then the digits of the absolute value |
| Notation.BoardFromSlashes | src/core/board.cpp:173-196 | the ranks written from rank r down are separated by exactly r slashes |
| Notation.RankTextWidth | src/core/board.cpp:176-192 | a rank text covers the pending empty squares plus every cell: digits count their value, letters one |
| Notation.RankTextNoAdjacentDigits | src/core/board.cpp:176-192 | runs of empty squares are merged, so no two digits stand side by side |
| Notation.BoardFieldShape | src/core/board.cpp:173-196 | the board field has seven slashes, and every rank covers eight squares with no adjacent digits |
| Notation.SideLetters | src/core/board.cpp:202-211 | at most the two letters of one colour, king side first |
| Notation.CastlingField | src/core/board.cpp:202-211 | "-" iff no right is held; each of K, Q, k, q appears iff its right is held |
| Notation.CastlingFieldOrdered | src/core/board.cpp:202-211 | the castling letters come in the order K, Q, k, q |
| Notation.EnPassantField | src/core/board.cpp:214-221 | "-" iff the square is -1, else its file and rank characters |
| Notation.RankTextChars | src/core/board.cpp:176-192 | a rank text holds only digits and piece letters |
| Notation.BoardFromChars | src/core/board.cpp:173-196 | the board field holds only digits, piece letters and '/' |
| Notation.BoardFieldNoSpace | src/core/board.cpp:173-196 | the board field has no space |
| Notation.IntToStringNoSpace | src/core/board.cpp:224-229 | a number has no space |
| Notation.CastlingFieldNoSpace | src/core/board.cpp:202-211 | the castling field has no space |
| Notation.EnPassantFieldNoSpace | src/core/board.cpp:214-221 | for every en-passant value whose rank character stays within ASCII, the field holds a space exactly for -143..-136, whose rank -17 makes '1' + rank the space character |
| Notation.FenHasSixFields | src/core/board.cpp:171-231 | with valid pieces and an en-passant field without a space, the record has exactly five spaces, so six fields |
| Notation.StartRankCells | src/core/board.cpp:45-82 | the cells of each rank after setStartPos on an empty board |
| Notation.StartRankFields | src/core/board.cpp:45-82 | the rank texts of the initial placement: RNBQKBNR, PPPPPPPP, four 8s, pppppppp, rnbqkbnr |
| Notation.StartBoardField | src/core/board.cpp:173-196 | the board field of the initial placement is rnbqkbnr/pppppppp/8/8/8/8/PPPPPPPP/RNBQKBNR |
| Notation.StartPositionFen | src/core/board.cpp:171-231 | setStartPos on an empty board, white to move with clocks 0 and 1, serialises to the standard start record |
| Notation.ParseSquare | src/core/board.cpp:308-320 | a square iff two characters a..h then 1..8, and the square's characters are those two |
| Notation.ParseSquareRoundTrip | src/core/board.cpp:308-320 | the file and rank characters of a square parse back to it |
| Notation.EnPassantFieldRoundTrip | src/core/board.cpp:308-320 | the en-passant field of an on-board square parses back to it |
| Notation.ParseMove | src/core/board.cpp:323-330 | only a four-character text gives squares; each half parses on its own; no piece, no flag |
| Notation.ParseMoveOfToString | src/core/board.cpp:323-330 | a move's text parses back to its squares, unless it carries the promotion 'q' and so has five characters |
| Notation.FindMatchingMove | src/core/board.cpp:332-339 | the first listed move with the same squares, or the no-move value when there is none |
| Notation.IsMoveLegal | src/core/board.cpp:341-348 | true iff some listed move has the same squares |
| Notation.MatchAgreesWithIsMoveLegal | src/core/board.cpp:332-348 | the matcher finds a move exactly when IsMoveLegal accepts |
| Notation.LegalMovesCanBeEntered | src/ChessGameLoop.cpp:168-183 | the text of every legal move parses and matches a legal move with the same squares |
| ChessBoard.Board.constructor | src/core/board.cpp:41-43 | every square is EMPTY |
| ChessBoard.Board.Copy | src/core/board.cpp:147 | the copy holds the same position in a fresh array |
| ChessBoard.Board.SetStartPos | src/core/board.cpp:45-82 | the array and fields become Positions.SetStartPos of the old ones |
| ChessBoard.Board.MakeMove | src/core/board.cpp:235-287 | the array and fields become ApplyMove of the old ones |
| ChessBoard.Board.UpdateCastlingRights | src/core/board.cpp:291-305 | the rights become CastlingAfter; nothing else changes |
| ChessBoard.Board.UpdateGameState | src/core/board.cpp:98-122 | the state becomes GameStateAfter of the old one |
| ChessBoard.Board.Play | src/ChessGameLoop.cpp:182-183 | the state becomes Positions.Play of the old one |
| ChessBoard.Board.FindKing | src/core/board.cpp:124-133 | the loop returns KingSquare of the array |
| ChessBoard.Board.ScanRay | src/core/board.cpp:469-492 | the while loop of one ray computes Ray |
| ChessBoard.Board.PawnTests | src/core/board.cpp:436-448 | the pawn tests compute PawnAttack |
| ChessBoard.Board.KnightTests | src/core/board.cpp:450-459 | the knight loop computes KnightAttack |
| ChessBoard.Board.RayTests | src/core/board.cpp:466-521 | the loop over four directions computes SlidingAttack |
| ChessBoard.Board.KingTests | src/core/board.cpp:523-532 | the king loop computes KingAttack |
| ChessBoard.Board.IsSquareAttacked | src/core/board.cpp:435-535 | the method computes Attacked |
| ChessBoard.Board.IsCheck | src/core/board.cpp:135-140 | the method computes InCheck |
| ChessBoard.Board.KeepsKingSafeOnCopy | src/core/board.cpp:147-150 | playing the move on a copy and testing for check computes KeepsKingSafe |
| ChessBoard.Board.KeepLegalMoves | src/core/board.cpp:146-153 | the loop computes KeepLegal of the board |
| ChessBoard.Board.GenerateLegalMoves | src/core/board.cpp:142-156 | the method returns LegalMoves of the board |
| ChessBoard.Board.IsCheckmate | src/core/board.cpp:158-161 | the method computes Checkmate |
| ChessBoard.Board.IsStalemate | src/core/board.cpp:164-167 | the method computes Stalemate |
| ChessBoard.Board.AppendRank | src/core/board.cpp:175-195 | the file loop appends the rank's field to the text |
| ChessBoard.Board.BoardText | src/core/board.cpp:173-196 | the rank loop writes BoardField |
| ChessBoard.Board.CastlingText | src/core/board.cpp:202-211 | the four tests write CastlingField |
| ChessBoard.Board.ToFEN | src/core/board.cpp:171-231 | the method returns Fen of the board |
| ChessBoard.RanksAboveThenBelow | src/core/board.cpp:173-196 | the ranks already written followed by the ranks still to come make up the board field |
| ChessBoard.CastlingFieldLetters | src/core/board.cpp:202-211 | the castling field is the letters of the held rights appended one by one, or "-" |
| ChessBoard.RankTextStep | src/core/board.cpp:176-192 | one iteration of the file loop: an empty cell raises the count; a piece flushes the count and writes its letter |
| ChessBoard.StartSquaresWritten | src/core/board.cpp:46-79 | the 32 writes of setStartPos give the two home groups around the untouched middle |
| PieceTables.GetPieceType | src/engine/piece_tables.hpp:37-40 | -1 for EMPTY; a valid piece gives 0..5, namely half of piece-1 rounded down |
| PieceTables.GetPieceTypeMixesKinds | src/engine/piece_tables.hpp:37-40 | as written, a black pawn and a black knight share index 0, a white pawn gets 3, black pieces reach only 0..2 and white ones only 3..5 |
| PieceTables.PieceKind | src/engine/piece_tables.hpp:37-40 | -1 for EMPTY, 0..5 for a valid piece |
| PieceTables.PieceKindPairsColours | src/engine/piece_tables.hpp:37-40 | the corrected index gives both colours of a kind the same index and tells the six kinds apart |
| PieceTables.FlipSquareBits | src/engine/piece_tables.hpp:42-44 | the flip keeps the bits below 3 and above 5 and maps the rank bits b to 7-b, which is xor with 56 |
| PieceTables.FlipSquareInvolution | src/engine/piece_tables.hpp:42-44 | flipping twice gives back any integer |
| PieceTables.FlipSquareOnBoard | src/engine/piece_tables.hpp:42-44 | on the board the flip keeps the file and maps rank r to 7-r |
| Engine.Ordinal | src/engine/engine.hpp:8-15 | a level's enum value is 0..5 |
| Engine.DepthFor | src/engine/engine.cpp:29-36 | the switch assigns depths 0..6, never 1, and 0 exactly to RANDOM |
| Engine.DepthForLevel | src/engine/engine.cpp:26-49 | RANDOM searches depth 0, every other level one more than its enum value; depth grows with level and tells levels apart |
| Engine.PieceValue | src/engine/engine.cpp:10-24 | values lie in 0..20000 and are 0 exactly for EMPTY |
| Engine.PieceValueByKind | src/engine/engine.cpp:10-24 | a piece is worth what its kind is worth, for either colour |
| Engine.SideMaterial | src/engine/engine.cpp:182-198 | one side's material is between 0 and a king's value per square |
| Engine.Material | src/engine/engine.cpp:182-198 | white minus black is bounded by a king's value per square either way |
| Engine.SideMaterialSwap | src/engine/engine.cpp:182-198 | after swapping colours each side owns what the other side owned |
| Engine.MaterialSwap | src/engine/engine.cpp:182-198 | the material balance changes sign when the colours are swapped |
| Engine.MaterialExactInFloat | src/engine/engine.cpp:182-198 | the material of a board stays below 2^24 in absolute value, where float sums of integers are exact |
| Engine.MoveOrderScore | src/engine/engine.cpp:231-255 | a move without ordering flags scores 0 or 10; a non-capture scores 0..1010 (the capture term itself is stated by Engine.CaptureTermAdds) |
| Engine.CentreBonus | src/engine/engine.cpp:248-252 | a move without ordering flags scores 10 iff it ends on files c..f and ranks 3..6 |
| Engine.FlagTermsAdd | src/engine/engine.cpp:240-246 | for any flags word without the bit, adding the promotion bit adds 900 and adding the castling bit adds 100 |
| Engine.CaptureTermAdds | src/engine/engine.cpp:234-238 | for any flags word without the bit, adding the capture bit adds 1000 plus the captured piece's value minus a tenth (rounded down; piece values are not negative) of the moving piece's value |
| Engine.CapturesFirst | src/engine/engine.cpp:234-238 | a capture by any piece but a king outscores every move without ordering flags |
| Engine.KingCapturesLast | src/engine/engine.cpp:234-238 | a king capturing anything but a king scores below zero, behind every move without ordering flags |
| Engine.InsertByScore | src/engine/engine.cpp:221 | inserting one pair adds its move to the multiset of moves and nothing else |
| Engine.InsertKeepsOrder | src/engine/engine.cpp:221 | inserting into a list sorted by descending score keeps it sorted |
| Engine.SortByScore | src/engine/engine.cpp:221 | the sort is a permutation of the moves, keeps each pair intact, and leaves them in descending score |
| Engine.CachedOrder | src/engine/engine.cpp:212-229 | pairs that carry their moves' scores, sorted descending, list the moves by score |
| Engine.TerminalScore | src/engine/engine.cpp:122-129 | without check the node scores 0 |
| Engine.TerminalScoreOrder | src/engine/engine.cpp:122-129 | the two sides score a mate with opposite signs, the side in check loses, and a mate nearer the root is worth more to the winner |
| Engine.ChessEngine.constructor | src/engine/engine.cpp:26-37 | the level's depth, 5000 ms, no nodes searched |
| Engine.ChessEngine.SetLevel | src/engine/engine.cpp:39-49 | the same depth as the constructor gives; the other fields stay |
| Engine.ChessEngine.EvaluateMaterial | src/engine/engine.cpp:182-198 | the loop computes Material of the board |
| Engine.ChessEngine.EvaluatePosition | src/engine/engine.cpp:164-180 | below EASY, the material from the side to move's point of view |
| Engine.ChessEngine.OrderMoves | src/engine/engine.cpp:212-229 | a permutation of the moves, listed highest getMoveOrderScore first |
| Engine.ChessEngine.NoMovesScore | src/engine/engine.cpp:122-129 | the terminal score; with no legal moves it is non-zero iff checkmate and zero iff stalemate |
| Engine.ChessEngine.GetBestMove | src/engine/engine.cpp:64-107 | time limit and depth are recorded; the node count stays 0 without legal moves or at RANDOM and is otherwise the search's count; the no-move value iff there is no legal move, else a legal move |
| Engine.ChessEngine.GetBestMoveAtLevel | src/engine/engine.cpp:60-62 | searches to the level's depth with the stored time limit, ignoring its argument; the same node count; returns a legal move or the no-move value |

## Left out

- The alpha-beta search itself (`alphaBeta`, `minimax`, `quiescenceSearch`) works on `float` scores, the clock and recursion over board copies. It is not modelled beyond the terminal-node score.
- Engine.ChessEngine.GetBestMove: the move chosen by the search or by the random generator is a parameter `choice`, and the number of `alphaBeta` calls, which `nodesSearched_` counts, is a parameter `searched`. The contract says only that the result is a legal move, not which one, and does not relate the node count to the depth. The time check and `lastEvaluation_` are left out.
- Engine.ChessEngine.GetBestMoveAtLevel: the same abstraction of the choice and of the node count as GetBestMove.
- Engine.ChessEngine.EvaluatePosition: modelled only below EASY. From EASY on, `evaluateMobility` adds a `float` term, and `float` arithmetic is not modelled. `evaluatePieceSquares`, `evaluateKingSafety` and `evaluatePawnStructure` are stubs that return 0.
- Engine.ChessEngine.EvaluateMaterial: the `float` accumulator is modelled as an integer. A loop invariant keeps every partial sum below 2^24 in absolute value, where `float` sums of integers are exact, and Engine.MaterialExactInFloat bounds the total the same way.
- `hashPosition`, `storeTTEntry` and `probeTTEntry` are stubs, and the transposition table is unused.
- `startSearch`, `isTimeUp` and `std::random_device` read the clock or the system's entropy, so they are left out.
- The piece-square tables (`MG_*`, `EG_*`, `calculateGamePhase`, `evaluateTapered`) are declared `extern` in `piece_tables.hpp` without a definition that is part of this model.
- PieceTables.FlipSquareBits: `sq ^ 56` is written as arithmetic on the Euclidean remainder and characterised bit by bit. There is no bitwise operator on unbounded integers.
- `Board::print` and the console game loop do only input and output, and `main.cpp` is a demo driver that sets up a position and prints its FEN and its pseudo-legal moves. `src/main.cpp` is a superseded stand-alone prototype with its own `board[64]`, its own piece enum, its own `EnumToChar` (which writes 'h'/'H' for the knight) and its own `boardToFEN` serialiser of the board field; it shares no code with the modelled board and is not part of this model. Of the game loop, the model keeps the makeMove-then-updateGameState order (`Positions.Play`) and the parse-and-match path (`Notation.LegalMovesCanBeEntered`).
- Notation.ParseMove: the text is a sequence of characters, while `std::string`'s `size()` and `substr` count bytes. The model agrees with the source only on ASCII input: "e2eé" has four characters but five UTF-8 bytes, so the source rejects it while the model parses it.
- Notation.Fen: requires an en-passant value whose rank character '1' + rank stays within ASCII (-392..631, `Utils.RankCharInAscii`). Outside that range the C++ `char` would wrap, which the model does not write out. `Board` does not keep this range as an invariant: `Valid()` only fixes the array length, so the caller of `ToFEN` must supply it.
- ChessBoard.Board.ToFEN: the same en-passant range requirement as Notation.Fen.
- ChessBoard.Board.constructor: `board.hpp` shows no initialisers for the scalar fields. The constructor assigns only the squares, and its contract speaks only of them; side to move, castling rights, en-passant square and clocks are left unspecified.
- `board.hpp` declares neither the scalar fields nor the helper methods that `board.cpp` defines. The model follows `board.cpp`. `parseMove` is called with two arguments in the game loop but defined with one, and the model follows the definition.
- ChessBoard.Board.IsSquareAttacked: the source returns at the first test that succeeds. The model runs the five groups of tests in order and combines their results. The answer is the same, since no test has an effect.
- ChessBoard.Board.SetStartPos: written as two short loops over the two groups of 16 squares rather than 32 statements.
- `toFEN`, `generateLegalMoves` and `orderMoves` are split into helper methods (`AppendRank`, `BoardText`, `CastlingText`, `KeepLegalMoves`, `SortByScore`) that follow the loops of the source.
- Engine.SortByScore: `std::sort` is modelled as an insertion sort. It is specified by its result: a permutation in descending score. `std::sort` is not stable, so the order among equal scores is left open.
- Integers are unbounded. No `int` in the modelled code can overflow: squares, clocks and scores stay far below 2^31, except a half-move clock or move number that grows without bound, which the model does not wrap.
- `EngineLevel` is a datatype of six values. An out-of-range value cast into the enum is not modelled: it would leave `maxDepth_` at 3 in the constructor, whose initialiser runs before the switch, and unchanged in `setLevel`, whose switch has no default branch.

## Findings

| source | as written | input that shows it | evidently intended | confidence | as-written member | corrected member |
|---|---|---|---|---|---|---|
| src/engine/piece_tables.hpp:37-40 | `getPieceType` returns `(piece - 1) / 2`, which pairs consecutive enum entries | B_PAWN (1) and B_KNIGHT (2) both give 0; W_PAWN (7) gives 3, the rook's index | the kind 0..5 of a piece of either colour, `(piece - 1) % 6`, to index the six per-kind tables | not executed | PieceTables.GetPieceTypeMixesKinds | PieceTables.PieceKindPairsColours |
