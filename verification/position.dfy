/**
 * The state a Board holds, as a value, and the three operations of
 * src/core/board.cpp that change it: makeMove, UpdateCastlingRights and
 * updateGameState. The Board class in board.dfy is proved to perform exactly
 * these transitions on its array and fields.
 */
module Positions {
  import opened Types
  import opened Utils
  import opened MoveGen

  datatype Position = Position(
    squares: seq<int>,
    castling: CastlingRights,
    whiteToMove: bool,
    enPassantSquare: int,
    halfmoveClock: int,
    fullMoveNumber: int)

  /** The squares setStartPos writes on White's side: the back rank on
      0..7 and the pawns on 8..15. */
  const WHITE_HOME: seq<int> :=
    [W_ROOK, W_KNIGHT, W_BISHOP, W_QUEEN, W_KING, W_BISHOP, W_KNIGHT, W_ROOK,
     W_PAWN, W_PAWN, W_PAWN, W_PAWN, W_PAWN, W_PAWN, W_PAWN, W_PAWN]

  /** The squares setStartPos writes on Black's side: the pawns on 48..55
      and the back rank on 56..63. */
  const BLACK_HOME: seq<int> :=
    [B_PAWN, B_PAWN, B_PAWN, B_PAWN, B_PAWN, B_PAWN, B_PAWN, B_PAWN,
     B_ROOK, B_KNIGHT, B_BISHOP, B_QUEEN, B_KING, B_BISHOP, B_KNIGHT, B_ROOK]

  lemma HomeSquaresValid()
    ensures |WHITE_HOME| == 16 && |BLACK_HOME| == 16
    ensures ValidPieces(WHITE_HOME) && ValidPieces(BLACK_HOME)
  {
  }

  /**
   * setStartPos. It writes the 32 squares of the first two and last two
   * ranks and grants all four castling rights; the middle of the board and
   * the other fields keep their values.
   */
  function SetStartPos(p: Position): (q: Position)
    requires |p.squares| == 64
    ensures |q.squares| == 64 && q.castling == ALL_RIGHTS
    ensures q.squares[..16] == WHITE_HOME && q.squares[48..] == BLACK_HOME
    ensures forall i :: 16 <= i < 48 ==> q.squares[i] == p.squares[i]
    ensures q.whiteToMove == p.whiteToMove && q.enPassantSquare == p.enPassantSquare
    ensures q.halfmoveClock == p.halfmoveClock && q.fullMoveNumber == p.fullMoveNumber
    ensures ValidPieces(p.squares) ==> ValidPieces(q.squares)
  {
    HomeSquaresValid();
    var squares := WHITE_HOME + p.squares[16..48] + BLACK_HOME;
    assert squares[..16] == WHITE_HOME && squares[48..] == BLACK_HOME;
    p.(squares := squares, castling := ALL_RIGHTS)
  }

  /** The four king destinations makeMove knows how to castle to. */
  predicate IsCastlingTarget(to: int)
  {
    to == 2 || to == 6 || to == 58 || to == 62
  }

  /** The corner the castling rook leaves: a1, h1, a8 or h8. */
  function RookCorner(to: int): int
    requires IsCastlingTarget(to)
  {
    if to == 2 then 0 else if to == 6 then 7 else if to == 58 then 56 else 63
  }

  /** The square the castling rook lands on: d1, f1, d8 or f8. */
  function RookLanding(to: int): int
    requires IsCastlingTarget(to)
  {
    if to == 2 then 3 else if to == 6 then 5 else if to == 58 then 59 else 61
  }

  /** makeMove relocates a piece for exactly these flag values. */
  predicate IsRelocation(flags: int)
  {
    flags == QUIET || flags == DOUBLE_PAWN_PUSH || flags == CAPTURE
  }

  /** The castling branch of makeMove fires. */
  predicate IsCastling(m: Move)
  {
    m.flags == CASTLING && IsCastlingTarget(m.to)
  }

  /** The squares makeMove indexes lie on the board: both ends of a
      relocation or promotion, and the origin of a castling move. */
  predicate Applicable(m: Move)
  {
    ((IsRelocation(m.flags) || m.flags == PROMOTION) ==> OnBoard(m.from) && OnBoard(m.to)) &&
    (IsCastling(m) ==> OnBoard(m.from))
  }

  /** The squares makeMove may write for `m`. */
  predicate Touched(m: Move, i: int)
  {
    i == m.from || i == m.to || (IsCastling(m) && (i == RookCorner(m.to) || i == RookLanding(m.to)))
  }

  /**
   * makeMove. It dispatches on the exact flag value: QUIET, DOUBLE_PAWN_PUSH
   * and CAPTURE move the piece, PROMOTION puts a queen of the pawn's colour
   * (judged by "is it W_PAWN") on `to` whatever `promotion` says, and
   * CASTLING onto one of the four targets moves a white king and a white
   * rook, also for the black targets, and drops both rights of the side the
   * target belongs to. Any other value changes nothing.
   */
  function ApplyMove(p: Position, m: Move): (q: Position)
    requires |p.squares| == 64 && Applicable(m)
    ensures |q.squares| == 64
    ensures q.whiteToMove == p.whiteToMove && q.enPassantSquare == p.enPassantSquare
    ensures q.halfmoveClock == p.halfmoveClock && q.fullMoveNumber == p.fullMoveNumber
    ensures RightsWithin(q.castling, p.castling)
    ensures forall i :: 0 <= i < 64 && !Touched(m, i) ==> q.squares[i] == p.squares[i]
    ensures ValidPieces(p.squares) ==> ValidPieces(q.squares)
  {
    var s := p.squares;
    if IsRelocation(m.flags) then
      p.(squares := s[m.to := s[m.from]][m.from := EMPTY])
    else if m.flags == PROMOTION then
      var queen := if s[m.from] == W_PAWN then W_QUEEN else B_QUEEN;
      p.(squares := s[m.to := queen][m.from := EMPTY])
    else if IsCastling(m) then
      var rights :=
        if m.to < 8 then p.castling.(whiteKingSide := false, whiteQueenSide := false)
        else p.castling.(blackKingSide := false, blackQueenSide := false);
      p.(squares := s[m.to := W_KING][RookLanding(m.to) := W_ROOK][m.from := EMPTY][RookCorner(m.to) := EMPTY],
         castling := rights)
    else
      p
  }

  /** A relocation carries the moving piece to `to`, empties `from` and
      keeps the castling rights. */
  lemma RelocationMovesPiece(p: Position, m: Move)
    requires |p.squares| == 64 && IsRelocation(m.flags) && OnBoard(m.from) && OnBoard(m.to)
    ensures ApplyMove(p, m).squares[m.from] == EMPTY
    ensures m.from != m.to ==> ApplyMove(p, m).squares[m.to] == p.squares[m.from]
    ensures ApplyMove(p, m).castling == p.castling
  {
  }

  /** A promotion always makes a queen: white's if a white pawn stood on
      `from`, black's otherwise, and the requested piece plays no part. */
  lemma PromotionMakesQueen(p: Position, m: Move, requested: int)
    requires |p.squares| == 64 && m.flags == PROMOTION && OnBoard(m.from) && OnBoard(m.to) && m.from != m.to
    ensures ApplyMove(p, m).squares[m.to] == (if p.squares[m.from] == W_PAWN then W_QUEEN else B_QUEEN)
    ensures ApplyMove(p, m).squares[m.from] == EMPTY
    ensures ApplyMove(p, m.(promotion := requested)) == ApplyMove(p, m)
    ensures ApplyMove(p, m).castling == p.castling
  {
  }

  /** Castling from a square distinct from the king's and rook's landing
      squares: a white king on `to`, a white rook beside it, `from` and the
      corner emptied, and exactly the rights of the side owning `to` lost.
      For the black targets this puts white pieces on the eighth rank. */
  lemma CastlingMovesWhitePieces(p: Position, m: Move)
    requires |p.squares| == 64 && IsCastling(m) && OnBoard(m.from)
    requires m.from != m.to && m.from != RookLanding(m.to)
    ensures ApplyMove(p, m).squares[m.to] == W_KING
    ensures ApplyMove(p, m).squares[RookLanding(m.to)] == W_ROOK
    ensures ApplyMove(p, m).squares[m.from] == EMPTY
    ensures ApplyMove(p, m).squares[RookCorner(m.to)] == EMPTY
    ensures m.to < 8 ==>
      ApplyMove(p, m).castling == p.castling.(whiteKingSide := false, whiteQueenSide := false)
    ensures m.to >= 8 ==>
      ApplyMove(p, m).castling == p.castling.(blackKingSide := false, blackQueenSide := false)
  {
  }

  /** Every other move — a combined flag, EN_PASSANT, or castling onto a
      square that is not a castling target — leaves the position as it was. */
  lemma OtherMovesChangeNothing(p: Position, m: Move)
    requires |p.squares| == 64 && Applicable(m)
    requires !IsRelocation(m.flags) && m.flags != PROMOTION && !IsCastling(m)
    ensures ApplyMove(p, m) == p
  {
  }

  /**
   * UpdateCastlingRights, on the squares it reads. A king of either colour on
   * `from` loses that colour's rights; a move from or to a1, h1, a8, h8
   * loses white king side, white queen side, black king side, black queen
   * side respectively (the source pairs a1 with the king side).
   */
  function CastlingAfter(s: seq<int>, c: CastlingRights, m: Move): (r: CastlingRights)
    requires |s| == 64 && OnBoard(m.from)
    ensures RightsWithin(r, c)
    ensures r.whiteKingSide <==> c.whiteKingSide && s[m.from] != W_KING && m.from != 0 && m.to != 0
    ensures r.whiteQueenSide <==> c.whiteQueenSide && s[m.from] != W_KING && m.from != 7 && m.to != 7
    ensures r.blackKingSide <==> c.blackKingSide && s[m.from] != B_KING && m.from != 56 && m.to != 56
    ensures r.blackQueenSide <==> c.blackQueenSide && s[m.from] != B_KING && m.from != 63 && m.to != 63
  {
    var afterWhiteKing := if s[m.from] == W_KING then c.(whiteKingSide := false, whiteQueenSide := false) else c;
    var afterKings :=
      if s[m.from] == B_KING then afterWhiteKing.(blackKingSide := false, blackQueenSide := false)
      else afterWhiteKing;
    var r1 := if m.from == 0 || m.to == 0 then afterKings.(whiteKingSide := false) else afterKings;
    var r2 := if m.from == 7 || m.to == 7 then r1.(whiteQueenSide := false) else r1;
    var r3 := if m.from == 56 || m.to == 56 then r2.(blackKingSide := false) else r2;
    if m.from == 63 || m.to == 63 then r3.(blackQueenSide := false) else r3
  }

  /** The en-passant square updateGameState records: -1 after any move not
      flagged as a double push; otherwise the square one rank back from `to`
      as seen by the pawn standing there, where a white pawn counts as moving
      up the board and anything else as moving down. For a two-rank push of
      the matching colour that is the square the pawn passed over. */
  function EnPassantAfter(s: seq<int>, m: Move): (ep: int)
    requires |s| == 64 && OnBoard(m.to)
    ensures m.flags != DOUBLE_PAWN_PUSH ==> ep == -1
    ensures m.flags == DOUBLE_PAWN_PUSH ==> Abs(ep - m.to) == 8 && (ep < m.to <==> s[m.to] == W_PAWN)
    ensures m.flags == DOUBLE_PAWN_PUSH && s[m.to] == W_PAWN && m.to == m.from + 16 ==>
      ep == m.from + 8
    ensures m.flags == DOUBLE_PAWN_PUSH && s[m.to] == B_PAWN && m.to == m.from - 16 ==>
      ep == m.from - 8
  {
    if m.flags == DOUBLE_PAWN_PUSH then
      if s[m.to] == W_PAWN then m.to - 8 else m.to + 8
    else -1
  }

  /**
   * updateGameState, applied to the position makeMove left behind: castling
   * rights via UpdateCastlingRights, the en-passant square, the fifty-move
   * clock (reset by a capture flag or a pawn on `to`), the move number
   * (advanced after black's move) and the side to move.
   */
  function GameStateAfter(p: Position, m: Move): (q: Position)
    requires |p.squares| == 64 && OnBoard(m.from) && OnBoard(m.to)
    ensures q.squares == p.squares
    ensures RightsWithin(q.castling, p.castling)
    ensures q.whiteToMove == !p.whiteToMove
    ensures q.fullMoveNumber == if p.whiteToMove then p.fullMoveNumber else p.fullMoveNumber + 1
    ensures q.halfmoveClock == 0 <==>
      m.flags == CAPTURE || p.squares[m.to] == W_PAWN || p.squares[m.to] == B_PAWN || p.halfmoveClock == -1
    ensures q.halfmoveClock != 0 ==> q.halfmoveClock == p.halfmoveClock + 1
    ensures m.flags != DOUBLE_PAWN_PUSH ==> q.enPassantSquare == -1
    ensures m.flags == DOUBLE_PAWN_PUSH ==>
      q.enPassantSquare == (if p.squares[m.to] == W_PAWN then m.to - 8 else m.to + 8)
  {
    var resets := m.flags == CAPTURE || p.squares[m.to] == W_PAWN || p.squares[m.to] == B_PAWN;
    Position(
      p.squares,
      CastlingAfter(p.squares, p.castling, m),
      !p.whiteToMove,
      EnPassantAfter(p.squares, m),
      if resets then 0 else p.halfmoveClock + 1,
      if !p.whiteToMove then p.fullMoveNumber + 1 else p.fullMoveNumber)
  }

  predicate Playable(p: Position, m: Move)
  {
    |p.squares| == 64 && Applicable(m) && OnBoard(m.from) && OnBoard(m.to)
  }

  /** One turn of the game loop: makeMove, then updateGameState on the
      resulting board. */
  function Play(p: Position, m: Move): (q: Position)
    requires Playable(p, m)
    ensures |q.squares| == 64
    ensures q.whiteToMove == !p.whiteToMove
    ensures RightsWithin(q.castling, p.castling)
    ensures ValidPieces(p.squares) ==> ValidPieces(q.squares)
  {
    GameStateAfter(ApplyMove(p, m), m)
  }

  /**
   * Because updateGameState runs after makeMove has emptied `from`, the
   * king tests of UpdateCastlingRights never see the king that moved: after
   * a relocation or promotion only the corner squares cost a right.
   */
  lemma PlayIgnoresMovingKing(p: Position, m: Move)
    requires Playable(p, m) && (IsRelocation(m.flags) || m.flags == PROMOTION)
    ensures Play(p, m).castling.whiteKingSide <==> p.castling.whiteKingSide && m.from != 0 && m.to != 0
    ensures Play(p, m).castling.whiteQueenSide <==> p.castling.whiteQueenSide && m.from != 7 && m.to != 7
    ensures Play(p, m).castling.blackKingSide <==> p.castling.blackKingSide && m.from != 56 && m.to != 56
    ensures Play(p, m).castling.blackQueenSide <==> p.castling.blackQueenSide && m.from != 63 && m.to != 63
  {
    var q := ApplyMove(p, m);
    assert q.castling == p.castling;
  }

  /** After a generated move the pawn stands on `to`, `from` is empty and
      nothing else changed. */
  lemma GeneratedMoveMovesPawn(p: Position, m: Move)
    requires |p.squares| == 64 && m in PseudoLegal(p.squares, p.whiteToMove)
    ensures Playable(p, m) && IsRelocation(m.flags) && m.from != m.to
    ensures ApplyMove(p, m).squares == p.squares[m.to := Pawn(p.whiteToMove)][m.from := EMPTY]
    ensures ApplyMove(p, m).castling == p.castling
  {
    PseudoLegalIff(p.squares, p.whiteToMove, m);
  }

  /** A generated double push records the square the pawn passed over. */
  lemma DoublePushRecordsPassedSquare(p: Position, m: Move)
    requires |p.squares| == 64 && m in PseudoLegal(p.squares, p.whiteToMove)
    requires m.flags == DOUBLE_PAWN_PUSH
    ensures Playable(p, m)
    ensures Play(p, m).enPassantSquare == m.from + Forward(p.whiteToMove)
  {
    PseudoLegalIff(p.squares, p.whiteToMove, m);
    GeneratedMoveMovesPawn(p, m);
  }

  /** Every generated move is a pawn move, so it resets the fifty-move clock
      and clears any en-passant square unless it is itself a double push. */
  lemma GeneratedMoveResetsClock(p: Position, m: Move)
    requires |p.squares| == 64 && m in PseudoLegal(p.squares, p.whiteToMove)
    ensures Playable(p, m)
    ensures Play(p, m).halfmoveClock == 0
    ensures m.flags != DOUBLE_PAWN_PUSH ==> Play(p, m).enPassantSquare == -1
  {
    GeneratedMoveMovesPawn(p, m);
  }
}
