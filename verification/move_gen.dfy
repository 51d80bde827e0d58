/**
 * The pseudo-legal move generator of src/core/moveGen.cpp.
 *
 * As written it emits pawn moves only: the knight routine is an empty stub
 * and every other kind is skipped. The generator reads the board's 64-entry
 * square array and appends to a move list passed by reference, modelled here
 * as a sequence passed in and returned.
 */
module MoveGen {
  import opened Types
  import opened Utils

  /** isWhite lists the six white kinds one by one; that is the range test. */
  function IsWhite(piece: int): (r: bool)
    ensures r <==> W_PAWN <= piece <= W_KING
  {
    piece == W_BISHOP || piece == W_KING || piece == W_KNIGHT || piece == W_ROOK || piece == W_QUEEN || piece == W_PAWN
  }

  /** isBlack lists the six black kinds one by one; that is the range test. */
  function IsBlack(piece: int): (r: bool)
    ensures r <==> B_PAWN <= piece <= B_KING
  {
    piece == B_BISHOP || piece == B_KING || piece == B_KNIGHT || piece == B_ROOK || piece == B_QUEEN || piece == B_PAWN
  }

  /** The two colour tests never both hold, and neither holds of EMPTY. */
  lemma ColoursDisjoint(piece: int)
    ensures !(IsWhite(piece) && IsBlack(piece))
    ensures !IsWhite(EMPTY) && !IsBlack(EMPTY)
  {
  }

  function Pawn(white: bool): int
  {
    if white then W_PAWN else B_PAWN
  }

  /** A white pawn advances by +8, a black pawn by -8. */
  function Forward(white: bool): int
  {
    if white then 8 else -8
  }

  /** The rank from which a double push is allowed. */
  function HomeRank(white: bool): int
  {
    if white then 1 else 6
  }

  /** What a pawn of the given colour may capture. */
  predicate IsEnemy(piece: int, white: bool)
  {
    if white then IsBlack(piece) else IsWhite(piece)
  }

  /** The forward moves of the pawn on `square`: the single push onto an empty
      square, then, from the home rank, the double push over it. */
  function Pushes(s: seq<int>, square: int, white: bool): seq<Move>
    requires |s| == 64 && OnBoard(square)
  {
    var one := square + Forward(white);
    var two := square + 2 * Forward(white);
    if OnBoard(one) && s[one] == EMPTY then
      [Move(square, one, EMPTY, EMPTY, QUIET)] +
      (if OnBoard(two) && s[two] == EMPTY && Rank(square) == HomeRank(white)
       then [Move(square, two, EMPTY, EMPTY, DOUBLE_PAWN_PUSH)] else [])
    else []
  }

  /** The capture onto `target`, one step forward and one file over, when the
      file guard passes and an opponent's piece stands there. */
  function CaptureOnto(s: seq<int>, square: int, white: bool, target: int, guardFile: int): seq<Move>
    requires |s| == 64 && OnBoard(square)
  {
    if File(square) != guardFile && OnBoard(target) && IsEnemy(s[target], white)
    then [Move(square, target, s[target], EMPTY, CAPTURE)] else []
  }

  /**
   * The moves addPawnMoves appends for the pawn on `square`, in the order
   * single push, double push, capture toward the a-file, capture toward the
   * h-file. White captures land on square+7 / square+9, black ones on
   * square-9 / square-7; the file guards keep edge pawns from wrapping.
   */
  function PawnMoves(s: seq<int>, square: int, white: bool): seq<Move>
    requires |s| == 64 && OnBoard(square)
  {
    var one := square + Forward(white);
    Pushes(s, square, white) + CaptureOnto(s, square, white, one - 1, 0) + CaptureOnto(s, square, white, one + 1, 7)
  }

  /** What GenPseudoLegal emits for one square: the pawn moves of a pawn of
      the side to move, nothing for a knight (its routine is a stub) and
      nothing for any other square. */
  function PieceMoves(s: seq<int>, square: int, white: bool): seq<Move>
    requires |s| == 64 && OnBoard(square)
  {
    var piece := s[square];
    if piece == EMPTY then []
    else if white && IsWhite(piece) then
      if piece == W_PAWN then PawnMoves(s, square, true) else []
    else if !white && IsBlack(piece) then
      if piece == B_PAWN then PawnMoves(s, square, false) else []
    else []
  }

  /** The moves of squares 0 .. n-1, in square order. */
  function PseudoLegalUpTo(s: seq<int>, white: bool, n: int): seq<Move>
    requires |s| == 64 && 0 <= n <= 64
  {
    if n == 0 then [] else PseudoLegalUpTo(s, white, n - 1) + PieceMoves(s, n - 1, white)
  }

  function PseudoLegal(s: seq<int>, white: bool): seq<Move>
    requires |s| == 64
  {
    PseudoLegalUpTo(s, white, 64)
  }

  /**
   * The shape of every move the generator can produce, stated without
   * reference to the generator: it starts on a pawn of the mover, never
   * promotes, and is
   *  - a single push onto the empty square ahead (flag QUIET), or
   *  - a double push from the home rank over an empty square onto an empty
   *    square (flag DOUBLE_PAWN_PUSH), or
   *  - a diagonal step forward whose file differs by exactly one, onto an
   *    opponent's piece, which it records (flag CAPTURE).
   */
  predicate Generated(s: seq<int>, white: bool, m: Move)
    requires |s| == 64
  {
    OnBoard(m.from) && OnBoard(m.to) && s[m.from] == Pawn(white) && m.promotion == EMPTY &&
    (SinglePush(s, white, m) || DoublePush(s, white, m) || PawnCapture(s, white, m))
  }

  predicate SinglePush(s: seq<int>, white: bool, m: Move)
    requires |s| == 64 && OnBoard(m.to)
  {
    m.flags == QUIET && m.to == m.from + Forward(white) && s[m.to] == EMPTY && m.captured == EMPTY
  }

  predicate DoublePush(s: seq<int>, white: bool, m: Move)
    requires |s| == 64 && OnBoard(m.from) && OnBoard(m.to)
  {
    m.flags == DOUBLE_PAWN_PUSH && m.to == m.from + 2 * Forward(white) && Rank(m.from) == HomeRank(white) &&
    s[m.from + Forward(white)] == EMPTY && s[m.to] == EMPTY && m.captured == EMPTY
  }

  predicate PawnCapture(s: seq<int>, white: bool, m: Move)
    requires |s| == 64 && OnBoard(m.to)
  {
    m.flags == CAPTURE && (m.to == m.from + Forward(white) - 1 || m.to == m.from + Forward(white) + 1) &&
    Abs(File(m.to) - File(m.from)) == 1 && IsEnemy(s[m.to], white) && m.captured == s[m.to]
  }

  /** The file guards of the captures are exactly "the file changes by one". */
  lemma DiagonalStepFile(from: int, d: int)
    requires OnBoard(from) && OnBoard(from + d)
    requires d == 7 || d == 9 || d == -7 || d == -9
    ensures (d == 7 || d == -9) ==> (Abs(File(from + d) - File(from)) == 1 <==> File(from) != 0)
    ensures (d == 9 || d == -7) ==> (Abs(File(from + d) - File(from)) == 1 <==> File(from) != 7)
  {
    RankFileOnBoard(from);
    RankFileOnBoard(from + d);
  }

  lemma PushesIff(s: seq<int>, square: int, white: bool, m: Move)
    requires |s| == 64 && OnBoard(square)
    ensures m in Pushes(s, square, white) <==>
      m.from == square && OnBoard(m.to) && m.promotion == EMPTY &&
      (SinglePush(s, white, m) || DoublePush(s, white, m))
  {
  }

  lemma CaptureOntoIff(s: seq<int>, square: int, white: bool, d: int, m: Move)
    requires |s| == 64 && OnBoard(square)
    requires d == Forward(white) - 1 || d == Forward(white) + 1
    ensures m in CaptureOnto(s, square, white, square + d, if d == Forward(white) - 1 then 0 else 7) <==>
      m.from == square && m.to == square + d && OnBoard(m.to) && m.promotion == EMPTY && PawnCapture(s, white, m)
  {
    if OnBoard(square + d) {
      DiagonalStepFile(square, d);
    }
  }

  /** The moves of one pawn are exactly the generated-shape moves from it. */
  lemma PawnMovesIff(s: seq<int>, square: int, white: bool, m: Move)
    requires |s| == 64 && OnBoard(square) && s[square] == Pawn(white)
    ensures m in PawnMoves(s, square, white) <==> m.from == square && Generated(s, white, m)
  {
    var f := Forward(white);
    PushesIff(s, square, white, m);
    CaptureOntoIff(s, square, white, f - 1, m);
    CaptureOntoIff(s, square, white, f + 1, m);
  }

  lemma PieceMovesIff(s: seq<int>, square: int, white: bool, m: Move)
    requires |s| == 64 && OnBoard(square)
    ensures m in PieceMoves(s, square, white) <==> m.from == square && Generated(s, white, m)
  {
    if s[square] == Pawn(white) {
      PawnMovesIff(s, square, white, m);
    }
  }

  lemma {:induction false} PseudoLegalUpToIff(s: seq<int>, white: bool, n: int, m: Move)
    requires |s| == 64 && 0 <= n <= 64
    ensures m in PseudoLegalUpTo(s, white, n) <==> Generated(s, white, m) && m.from < n
  {
    if n > 0 {
      PseudoLegalUpToIff(s, white, n - 1, m);
      PieceMovesIff(s, n - 1, white, m);
    }
  }

  /**
   * The generator's output is exactly the set of generated-shape moves: only
   * pawns of the side to move produce moves, pushes land on empty squares,
   * double pushes start on the home rank, captures take an opponent's piece
   * one file over and record it, and no move carries PROMOTION, EN_PASSANT or
   * CASTLING (not even a push to the last rank).
   */
  lemma PseudoLegalIff(s: seq<int>, white: bool, m: Move)
    requires |s| == 64
    ensures m in PseudoLegal(s, white) <==> Generated(s, white, m)
  {
    PseudoLegalUpToIff(s, white, 64, m);
  }

  lemma {:induction false} PseudoLegalUpToAscending(s: seq<int>, white: bool, n: int)
    requires |s| == 64 && 0 <= n <= 64
    ensures forall i, j :: 0 <= i < j < |PseudoLegalUpTo(s, white, n)| ==>
      PseudoLegalUpTo(s, white, n)[i].from <= PseudoLegalUpTo(s, white, n)[j].from
    ensures forall m :: m in PseudoLegalUpTo(s, white, n) ==> m.from < n
  {
    if n > 0 {
      PseudoLegalUpToAscending(s, white, n - 1);
      var prefix := PseudoLegalUpTo(s, white, n - 1);
      var last := PieceMoves(s, n - 1, white);
      forall m | m in last ensures m.from == n - 1 {
        PieceMovesIff(s, n - 1, white, m);
      }
      assert PseudoLegalUpTo(s, white, n) == prefix + last;
      forall i, j | 0 <= i < j < |prefix + last|
        ensures (prefix + last)[i].from <= (prefix + last)[j].from
      {
        if j < |prefix| {
        } else if i < |prefix| {
          assert prefix[i] in prefix;
          assert last[j - |prefix|] in last;
        } else {
          assert last[i - |prefix|] in last;
          assert last[j - |prefix|] in last;
        }
      }
    }
  }

  /** Moves come out in ascending order of their starting square. */
  lemma PseudoLegalAscending(s: seq<int>, white: bool)
    requires |s| == 64
    ensures forall i, j :: 0 <= i < j < |PseudoLegal(s, white)| ==>
      PseudoLegal(s, white)[i].from <= PseudoLegal(s, white)[j].from
  {
    PseudoLegalUpToAscending(s, white, 64);
  }

  /** Every generated move is on the board and carries exactly one of the
      flags QUIET, DOUBLE_PAWN_PUSH, CAPTURE. */
  lemma PseudoLegalFlags(s: seq<int>, white: bool)
    requires |s| == 64
    ensures forall m :: m in PseudoLegal(s, white) ==>
      OnBoard(m.from) && OnBoard(m.to) &&
      (m.flags == QUIET || m.flags == DOUBLE_PAWN_PUSH || m.flags == CAPTURE) &&
      !HasFlag(m.flags, PROMOTION) && !HasFlag(m.flags, EN_PASSANT) && !HasFlag(m.flags, CASTLING)
  {
    forall m | m in PseudoLegal(s, white)
      ensures OnBoard(m.from) && OnBoard(m.to) &&
        (m.flags == QUIET || m.flags == DOUBLE_PAWN_PUSH || m.flags == CAPTURE)
    {
      PseudoLegalIff(s, white, m);
    }
  }

  /** The three appends of addPawnMoves together append PawnMoves. */
  lemma PawnMovesAppended(s: seq<int>, square: int, white: bool,
                          moves: seq<Move>, pushed: seq<Move>, left: seq<Move>, out: seq<Move>)
    requires |s| == 64 && OnBoard(square)
    requires pushed == moves + Pushes(s, square, white)
    requires left == pushed + CaptureOnto(s, square, white, square + Forward(white) - 1, 0)
    requires out == left + CaptureOnto(s, square, white, square + Forward(white) + 1, 7)
    ensures out == moves + PawnMoves(s, square, white)
  {
  }

  /** addPawnMoves: appends the moves of the pawn on `square` to `moves`.
      The two colours take separate branches with their own target squares. */
  method AddPawnMoves(squares: array<int>, square: int, white: bool, moves: seq<Move>)
    returns (out: seq<Move>)
    requires squares.Length == 64 && OnBoard(square)
    ensures out == moves + PawnMoves(squares[..], square, white)
  {
    if white {
      out := AddWhitePawnMoves(squares, square, moves);
    } else {
      out := AddBlackPawnMoves(squares, square, moves);
    }
  }

  /** The white branch of addPawnMoves: targets square+8, +16, +7 and +9. */
  method AddWhitePawnMoves(squares: array<int>, square: int, moves: seq<Move>)
    returns (out: seq<Move>)
    requires squares.Length == 64 && OnBoard(square)
    ensures out == moves + PawnMoves(squares[..], square, true)
  {
    ghost var s := squares[..];
    var wForward, wForward2, wCaptureLeft, wCaptureRight := square + 8, square + 16, square + 7, square + 9;
    out := moves;
    if OnBoard(wForward) && squares[wForward] == EMPTY {
      out := out + [Move(square, wForward, EMPTY, EMPTY, QUIET)];
      if OnBoard(wForward2) && squares[wForward2] == EMPTY && Rank(square) == 1 {
        out := out + [Move(square, wForward2, EMPTY, EMPTY, DOUBLE_PAWN_PUSH)];
      }
    }
    ghost var pushed := out;
    assert pushed == moves + Pushes(s, square, true);
    if File(square) != 0 && OnBoard(wCaptureLeft) && IsBlack(squares[wCaptureLeft]) {
      out := out + [Move(square, wCaptureLeft, squares[wCaptureLeft], EMPTY, CAPTURE)];
    }
    ghost var left := out;
    assert left == pushed + CaptureOnto(s, square, true, wCaptureLeft, 0);
    if File(square) != 7 && OnBoard(wCaptureRight) && IsBlack(squares[wCaptureRight]) {
      out := out + [Move(square, wCaptureRight, squares[wCaptureRight], EMPTY, CAPTURE)];
    }
    assert out == left + CaptureOnto(s, square, true, wCaptureRight, 7);
    PawnMovesAppended(s, square, true, moves, pushed, left, out);
  }

  /** The black branch of addPawnMoves: targets square-8, -16, -9 and -7. */
  method AddBlackPawnMoves(squares: array<int>, square: int, moves: seq<Move>)
    returns (out: seq<Move>)
    requires squares.Length == 64 && OnBoard(square)
    ensures out == moves + PawnMoves(squares[..], square, false)
  {
    ghost var s := squares[..];
    var bForward, bForward2, bCaptureLeft, bCaptureRight := square - 8, square - 16, square - 9, square - 7;
    out := moves;
    if OnBoard(bForward) && squares[bForward] == EMPTY {
      out := out + [Move(square, bForward, EMPTY, EMPTY, QUIET)];
      if OnBoard(bForward2) && squares[bForward2] == EMPTY && Rank(square) == 6 {
        out := out + [Move(square, bForward2, EMPTY, EMPTY, DOUBLE_PAWN_PUSH)];
      }
    }
    ghost var pushed := out;
    assert pushed == moves + Pushes(s, square, false);
    if File(square) != 0 && OnBoard(bCaptureLeft) && IsWhite(squares[bCaptureLeft]) {
      out := out + [Move(square, bCaptureLeft, squares[bCaptureLeft], EMPTY, CAPTURE)];
    }
    ghost var left := out;
    assert left == pushed + CaptureOnto(s, square, false, bCaptureLeft, 0);
    if File(square) != 7 && OnBoard(bCaptureRight) && IsWhite(squares[bCaptureRight]) {
      out := out + [Move(square, bCaptureRight, squares[bCaptureRight], EMPTY, CAPTURE)];
    }
    assert out == left + CaptureOnto(s, square, false, bCaptureRight, 7);
    PawnMovesAppended(s, square, false, moves, pushed, left, out);
  }

  /** addKnightMoves is an empty stub: the list comes back unchanged. */
  method AddKnightMoves(squares: array<int>, square: int, white: bool, moves: seq<Move>)
    returns (out: seq<Move>)
    requires squares.Length == 64 && OnBoard(square)
    ensures out == moves
  {
    out := moves;
  }

  /** GenPseudoLegal: scans squares 0..63 and dispatches on the piece. */
  method GenPseudoLegal(squares: array<int>, whiteToMove: bool) returns (moves: seq<Move>)
    requires squares.Length == 64
    ensures moves == PseudoLegal(squares[..], whiteToMove)
  {
    moves := [];
    for sq := 0 to 64
      invariant moves == PseudoLegalUpTo(squares[..], whiteToMove, sq)
    {
      var piece := squares[sq];
      assert squares[..][sq] == piece;
      if piece == EMPTY {
        continue;
      }
      if whiteToMove && IsWhite(piece) {
        if piece == W_PAWN {
          moves := AddPawnMoves(squares, sq, true, moves);
        } else if piece == W_KNIGHT {
          moves := AddKnightMoves(squares, sq, true, moves);
        }
      } else if !whiteToMove && IsBlack(piece) {
        if piece == B_PAWN {
          moves := AddPawnMoves(squares, sq, false, moves);
        } else if piece == B_KNIGHT {
          moves := AddKnightMoves(squares, sq, false, moves);
        }
      }
    }
  }
}
