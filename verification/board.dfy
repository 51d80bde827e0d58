/**
 * The Board class of src/core/board.cpp: a 64-entry array of pieces and
 * the scalar fields of the position, changed in place by setStartPos,
 * makeMove, UpdateCastlingRights and updateGameState, and read by the loops
 * findking, isSquareAttacked, generateLegalMoves and toFEN. Every method is
 * proved to do what the value model of the same name in Positions,
 * Attacks, Legality and Notation does, on View(), the board read as a
 * Position.
 */
module ChessBoard {
  import opened Types
  import opened Utils
  import opened MoveGen
  import opened Positions
  import opened Attacks
  import opened Legality
  import opened Notation

  class Board {
    var squares: array<int>
    var castling: CastlingRights
    var whiteToMove: bool
    var enPassantSquare: int
    var halfmoveClock: int
    var fullMoveNumber: int

    predicate Valid()
      reads this
    {
      squares.Length == 64
    }

    /** The board as a value. */
    function View(): (p: Position)
      reads this, squares
      ensures |p.squares| == squares.Length
    {
      Position(squares[..], castling, whiteToMove, enPassantSquare, halfmoveClock, fullMoveNumber)
    }

    /** Board(): every square EMPTY. */
    constructor()
      ensures Valid() && fresh(squares)
      ensures forall i :: 0 <= i < 64 ==> squares[i] == EMPTY
    {
      squares := new int[64](_ => EMPTY);
    }

    /** The copy `Board testBoard = *this` of generateLegalMoves. */
    constructor Copy(other: Board)
      requires other.Valid()
      ensures Valid() && fresh(squares)
      ensures View() == other.View()
    {
      var a := new int[64];
      var i := 0;
      while i < 64
        invariant 0 <= i <= 64
        invariant forall j :: 0 <= j < i ==> a[j] == other.squares[j]
      {
        a[i] := other.squares[i];
        i := i + 1;
      }
      assert a[..] == other.squares[..];
      squares := a;
      castling := other.castling;
      whiteToMove := other.whiteToMove;
      enPassantSquare := other.enPassantSquare;
      halfmoveClock := other.halfmoveClock;
      fullMoveNumber := other.fullMoveNumber;
    }

    /** setStartPos. The source writes the 32 squares one statement each;
        here the same writes are made by two loops over the home ranks. */
    method SetStartPos()
      requires Valid()
      modifies this, squares
      ensures Valid() && squares == old(squares)
      ensures View() == Positions.SetStartPos(old(View()))
    {
      HomeSquaresValid();
      for i := 0 to 16
        modifies squares
        invariant forall j :: 0 <= j < i ==> squares[j] == WHITE_HOME[j]
        invariant forall j :: i <= j < 64 ==> squares[j] == old(squares[j])
      {
        squares[i] := WHITE_HOME[i];
      }
      for i := 48 to 64
        modifies squares
        invariant forall j :: 0 <= j < 16 ==> squares[j] == WHITE_HOME[j]
        invariant forall j :: 16 <= j < 48 ==> squares[j] == old(squares[j])
        invariant forall j :: 48 <= j < i ==> squares[j] == BLACK_HOME[j - 48]
        invariant forall j :: i <= j < 64 ==> squares[j] == old(squares[j])
      {
        squares[i] := BLACK_HOME[i - 48];
      }
      castling := ALL_RIGHTS;
      StartSquaresWritten(old(squares[..]), squares[..]);
      assert Positions.SetStartPos(old(View())).squares == WHITE_HOME + old(squares[..])[16..48] + BLACK_HOME;
    }

    /** makeMove. */
    method MakeMove(m: Move)
      requires Valid() && Applicable(m)
      modifies this, squares
      ensures Valid() && squares == old(squares)
      ensures View() == ApplyMove(old(View()), m)
    {
      if m.flags == QUIET || m.flags == DOUBLE_PAWN_PUSH {
        squares[m.to] := squares[m.from];
        squares[m.from] := EMPTY;
      } else if m.flags == CAPTURE {
        squares[m.to] := squares[m.from];
        squares[m.from] := EMPTY;
      } else if m.flags == PROMOTION {
        if squares[m.from] == W_PAWN {
          squares[m.to] := W_QUEEN;
          squares[m.from] := EMPTY;
        } else {
          squares[m.to] := B_QUEEN;
        }
        squares[m.from] := EMPTY;
      }
      if m.flags == CASTLING {
        if m.to == 2 {
          squares[m.to] := W_KING;
          squares[3] := W_ROOK;
          squares[m.from] := EMPTY;
          squares[0] := EMPTY;
          castling := castling.(whiteKingSide := false, whiteQueenSide := false);
        } else if m.to == 6 {
          squares[m.to] := W_KING;
          squares[5] := W_ROOK;
          squares[m.from] := EMPTY;
          squares[7] := EMPTY;
          castling := castling.(whiteKingSide := false, whiteQueenSide := false);
        } else if m.to == 58 {
          squares[m.to] := W_KING;
          squares[59] := W_ROOK;
          squares[m.from] := EMPTY;
          squares[56] := EMPTY;
          castling := castling.(blackKingSide := false, blackQueenSide := false);
        } else if m.to == 62 {
          squares[m.to] := W_KING;
          squares[61] := W_ROOK;
          squares[m.from] := EMPTY;
          squares[63] := EMPTY;
          castling := castling.(blackKingSide := false, blackQueenSide := false);
        }
      }
    }

    /** UpdateCastlingRights. */
    method UpdateCastlingRights(m: Move)
      requires Valid() && OnBoard(m.from)
      modifies this
      ensures Valid() && squares == old(squares)
      ensures castling == CastlingAfter(squares[..], old(castling), m)
      ensures whiteToMove == old(whiteToMove) && enPassantSquare == old(enPassantSquare)
      ensures halfmoveClock == old(halfmoveClock) && fullMoveNumber == old(fullMoveNumber)
    {
      var rights := castling;
      if squares[m.from] == W_KING {
        rights := rights.(whiteKingSide := false);
        rights := rights.(whiteQueenSide := false);
      }
      if squares[m.from] == B_KING {
        rights := rights.(blackKingSide := false);
        rights := rights.(blackQueenSide := false);
      }
      if m.from == 0 || m.to == 0 {
        rights := rights.(whiteKingSide := false);
      }
      if m.from == 7 || m.to == 7 {
        rights := rights.(whiteQueenSide := false);
      }
      if m.from == 56 || m.to == 56 {
        rights := rights.(blackKingSide := false);
      }
      if m.from == 63 || m.to == 63 {
        rights := rights.(blackQueenSide := false);
      }
      castling := rights;
    }

    /** updateGameState. */
    method UpdateGameState(m: Move)
      requires Valid() && OnBoard(m.from) && OnBoard(m.to)
      modifies this
      ensures Valid() && squares == old(squares)
      ensures View() == GameStateAfter(old(View()), m)
    {
      UpdateCastlingRights(m);

      enPassantSquare := -1;
      if m.flags == DOUBLE_PAWN_PUSH {
        if squares[m.to] == W_PAWN {
          enPassantSquare := m.to - 8;
        } else {
          enPassantSquare := m.to + 8;
        }
      }

      if m.flags == CAPTURE || squares[m.to] == W_PAWN || squares[m.to] == B_PAWN {
        halfmoveClock := 0;
      } else {
        halfmoveClock := halfmoveClock + 1;
      }

      if !whiteToMove {
        fullMoveNumber := fullMoveNumber + 1;
      }

      whiteToMove := !whiteToMove;
    }

    /** One turn of the game loop: makeMove, then updateGameState. */
    method Play(m: Move)
      requires Valid() && Playable(View(), m)
      modifies this, squares
      ensures Valid() && squares == old(squares)
      ensures View() == Positions.Play(old(View()), m)
    {
      MakeMove(m);
      UpdateGameState(m);
    }

    /** findking. */
    method FindKing(white: bool) returns (k: int)
      requires Valid()
      ensures k == KingSquare(squares[..], white)
    {
      var targetKing := if white then W_KING else B_KING;
      var i := 0;
      while i < 64
        invariant 0 <= i <= 64
        invariant forall j :: 0 <= j < i ==> squares[j] != targetKing
      {
        if squares[i] == targetKing {
          return i;
        }
        i := i + 1;
      }
      return -1;
    }

    /** One ray loop of isSquareAttacked: walk from `square` in steps of
        `dir` while the step guard holds and the squares are empty. */
    method ScanRay(square: int, dir: int, byWhite: bool, diagonal: bool) returns (hit: bool)
      requires Valid() && IsRayDir(dir, diagonal)
      ensures hit == Ray(squares[..], byWhite, square, square + dir, dir, diagonal)
    {
      var prev := square;
      var t := square + dir;
      while OnBoard(t)
        invariant t == prev + dir
        invariant Ray(squares[..], byWhite, square, square + dir, dir, diagonal) ==
          Ray(squares[..], byWhite, prev, t, dir, diagonal)
        decreases RayMeasure(t, dir)
      {
        if !StepOk(prev, t, dir, diagonal) {
          return false;
        }
        var p := squares[t];
        if p == EMPTY {
          prev := t;
          t := t + dir;
        } else {
          return IsAttacker(p, byWhite) && Slider(p, byWhite, diagonal);
        }
      }
      return false;
    }

    /** Part 1 of isSquareAttacked: the two pawn tests. */
    method PawnTests(square: int, byWhite: bool) returns (hit: bool)
      requires Valid()
      ensures hit == PawnAttack(squares[..], square, byWhite)
    {
      if byWhite {
        var from := square - 7;
        hit := OnBoard(from) && squares[from] == W_PAWN && File(from) == File(square) - 1;
        from := square - 9;
        hit := hit || (OnBoard(from) && squares[from] == W_PAWN && File(from) == File(square) + 1);
      } else {
        var from := square + 7;
        hit := OnBoard(from) && squares[from] == B_PAWN && File(from) == File(square) + 1;
        from := square + 9;
        hit := hit || (OnBoard(from) && squares[from] == B_PAWN && File(from) == File(square) - 1);
      }
    }

    /** Part 2 of isSquareAttacked: the loop over the eight knight offsets. */
    method KnightTests(square: int, byWhite: bool) returns (hit: bool)
      requires Valid()
      ensures hit == KnightAttack(squares[..], square, byWhite)
    {
      hit := false;
      for k := 0 to 8
        invariant hit <==> exists j :: 0 <= j < k && KnightHit(squares[..], square, KNIGHT_OFFSETS[j], byWhite)
      {
        var t := square + KNIGHT_OFFSETS[k];
        if OnBoard(t) {
          var fd := Abs(File(t) - File(square));
          var rd := Abs(Rank(t) - Rank(square));
          if (fd == 1 && rd == 2) || (fd == 2 && rd == 1) {
            hit := hit || (byWhite && squares[t] == W_KNIGHT && squares[t] == B_KNIGHT);
          }
        }
      }
    }

    /** Parts 3 and 4 of isSquareAttacked: the loop over the four rook or
        the four diagonal directions. */
    method RayTests(square: int, byWhite: bool, diagonal: bool) returns (hit: bool)
      requires Valid()
      ensures hit == SlidingAttack(squares[..], square, byWhite, diagonal)
    {
      var dirs := if diagonal then DIAGONAL_DIRS else ROOK_DIRS;
      assert dirs == Dirs(diagonal);
      hit := false;
      for k := 0 to 4
        invariant hit <==>
          exists j :: 0 <= j < k && Ray(squares[..], byWhite, square, square + dirs[j], dirs[j], diagonal)
      {
        var rayHit := ScanRay(square, dirs[k], byWhite, diagonal);
        hit := hit || rayHit;
      }
    }

    /** Part 5 of isSquareAttacked: the loop over the eight king offsets. */
    method KingTests(square: int, byWhite: bool) returns (hit: bool)
      requires Valid()
      ensures hit == KingAttack(squares[..], square, byWhite)
    {
      hit := false;
      for k := 0 to 8
        invariant hit <==> exists j :: 0 <= j < k && KingHit(squares[..], square, KING_OFFSETS[j], byWhite)
      {
        var t := square + KING_OFFSETS[k];
        if OnBoard(t) {
          var fd := Abs(File(t) - File(square));
          var rd := Abs(Rank(t) - Rank(square));
          if fd <= 1 && rd <= 1 {
            hit := hit || (byWhite && squares[t] == W_KING && squares[t] == B_KING);
          }
        }
      }
    }

    /**
     * isSquareAttacked. The five groups of tests run in the order of the
     * source and their outcomes are combined at the end; the source returns
     * at the first test that succeeds, which gives the same answer since no
     * test has an effect.
     */
    method IsSquareAttacked(square: int, byWhite: bool) returns (attacked: bool)
      requires Valid()
      ensures attacked == Attacked(squares[..], square, byWhite)
    {
      var pawn := PawnTests(square, byWhite);
      var knight := KnightTests(square, byWhite);
      var straight := RayTests(square, byWhite, false);
      var diagonal := RayTests(square, byWhite, true);
      var king := KingTests(square, byWhite);
      attacked := pawn || knight || straight || diagonal || king;
    }

    /** isCheck. */
    method IsCheck(white: bool) returns (check: bool)
      requires Valid()
      ensures check == InCheck(squares[..], white)
    {
      var kingSquare := FindKing(white);
      if kingSquare == -1 {
        return false;
      }
      check := IsSquareAttacked(kingSquare, !white);
    }

    /** The body of the generateLegalMoves loop for one move: play it on a
        copy of the board and ask whether the mover is then in check. */
    method KeepsKingSafeOnCopy(move: Move) returns (safe: bool)
      requires Valid() && Applicable(move)
      ensures safe == KeepsKingSafe(View(), move)
    {
      var testBoard := new Board.Copy(this);
      testBoard.MakeMove(move);
      var inCheck := testBoard.IsCheck(whiteToMove);
      safe := !inCheck;
    }

    /** The loop of generateLegalMoves: each move is tried on a copy of the
        board and kept when the mover's king is not attacked afterwards. */
    method KeepLegalMoves(pseudo: seq<Move>) returns (legal: seq<Move>)
      requires Valid() && AllApplicable(pseudo)
      ensures legal == KeepLegal(View(), pseudo)
    {
      legal := [];
      var i := 0;
      while i < |pseudo|
        invariant 0 <= i <= |pseudo|
        invariant legal == KeepLegal(View(), pseudo[..i])
      {
        var move := pseudo[i];
        KeepLegalStep(View(), pseudo, i);
        var safe := KeepsKingSafeOnCopy(move);
        if safe {
          legal := legal + [move];
        }
        i := i + 1;
      }
      assert pseudo[..i] == pseudo;
    }

    /** generateLegalMoves: the pseudo-legal moves that do not leave the
        mover in check, in generation order. */
    method GenerateLegalMoves() returns (legal: seq<Move>)
      requires Valid()
      ensures legal == LegalMoves(View())
    {
      var pseudo := GenPseudoLegal(squares, whiteToMove);
      PseudoLegalApplicable(squares[..], whiteToMove);
      legal := KeepLegalMoves(pseudo);
    }

    /** isCheckmate. */
    method IsCheckmate() returns (mate: bool)
      requires Valid()
      ensures mate == Checkmate(View())
    {
      var check := IsCheck(whiteToMove);
      if !check {
        return false;
      }
      var moves := GenerateLegalMoves();
      return |moves| == 0;
    }

    /** isStalemate. */
    method IsStalemate() returns (stalemate: bool)
      requires Valid()
      ensures stalemate == Stalemate(View())
    {
      var check := IsCheck(whiteToMove);
      if check {
        return false;
      }
      var moves := GenerateLegalMoves();
      return |moves| == 0;
    }

    /** The inner loop of toFEN over the eight files of one rank, appending
        to `fen`: piece letters, with each run of empty squares as its
        length. */
    method AppendRank(fen: string, rank: int) returns (out: string)
      requires Valid() && 0 <= rank < 8
      ensures out == fen + RankField(squares[..], rank)
    {
      ghost var cells := RankCells(squares[..], rank);
      out := fen;
      var emptyCount := 0;
      for file := 0 to 8
        invariant 0 <= emptyCount <= file
        invariant out + RankText(cells[file..], emptyCount) == fen + RankText(cells, 0)
      {
        var square := rank * 8 + file;
        assert cells[file] == squares[square];
        RankTextStep(cells, file, emptyCount);
        if squares[square] == EMPTY {
          emptyCount := emptyCount + 1;
        } else {
          ghost var letter := EnumToChar(squares[square]);
          ghost var rest := RankText(cells[file + 1..], 0);
          if emptyCount > 0 {
            FlushStep(out, NatToString(emptyCount), letter, rest);
            out := out + NatToString(emptyCount);
            emptyCount := 0;
          } else {
            FlushStep(out, "", letter, rest);
            assert out + "" == out;
          }
          out := out + EnumToChar(squares[square]);
        }
      }
      if emptyCount > 0 {
        out := out + NatToString(emptyCount);
      }
    }

    /** The board loop of toFEN: the ranks from 8 down to 1, separated by
        '/'. */
    method BoardText() returns (fen: string)
      requires Valid()
      ensures fen == BoardField(squares[..])
    {
      fen := "";
      ghost var s := squares[..];
      var rank := 7;
      while rank >= 0
        invariant -1 <= rank <= 7
        invariant fen == RanksAbove(s, rank)
      {
        fen := AppendRank(fen, rank);
        if rank > 0 {
          fen := fen + "/";
        }
        rank := rank - 1;
      }
      RanksAboveThenBelow(s, -1);
    }

    /** The castling part of toFEN: a letter per right held, "-" for none. */
    method CastlingText() returns (text: string)
      ensures text == CastlingField(castling)
    {
      text := "";
      if castling.whiteKingSide {
        text := text + "K";
      }
      ghost var held := Letter(castling.whiteKingSide, 'K');
      assert text == held;
      if castling.whiteQueenSide {
        text := text + "Q";
      }
      held := held + Letter(castling.whiteQueenSide, 'Q');
      assert text == held;
      if castling.blackKingSide {
        text := text + "k";
      }
      held := held + Letter(castling.blackKingSide, 'k');
      assert text == held;
      if castling.blackQueenSide {
        text := text + "q";
      }
      held := held + Letter(castling.blackQueenSide, 'q');
      assert text == held;
      CastlingFieldLetters(castling);
      if text == "" {
        text := "-";
      }
    }

    /** toFEN: the six fields, each after a single space but the first. */
    method ToFEN() returns (fen: string)
      requires Valid() && RankCharInAscii(enPassantSquare)
      ensures fen == Fen(View())
    {
      // board representation
      fen := BoardText();

      // active side
      fen := fen + " ";
      fen := fen + (if whiteToMove then "w" else "b");

      // castling rights
      fen := fen + " ";
      var castlingText := CastlingText();
      fen := fen + castlingText;

      // en passant target square
      fen := fen + " ";
      if enPassantSquare == -1 {
        fen := fen + "-";
      } else {
        SquareChars(fen, FileChar(enPassantSquare), RankChar(enPassantSquare));
        fen := fen + [FileChar(enPassantSquare)];
        fen := fen + [RankChar(enPassantSquare)];
      }

      // halfmove clock
      fen := fen + " ";
      fen := fen + IntToString(halfmoveClock);

      // fullmove number
      fen := fen + " ";
      fen := fen + IntToString(fullMoveNumber);
    }
  }

  lemma AppendAssoc(a: string, b: string, c: string)
    ensures a + (b + c) == a + b + c
  {
  }

  /** Appending a square's two characters one at a time. */
  lemma SquareChars(t: string, file: char, rank: char)
    ensures t + [file] + [rank] == t + [file, rank]
  {
  }

  /** What the board loop of toFEN has written once the ranks above
      `rank` are done: each of them followed by '/' unless it is rank 1. */
  function RanksAbove(s: seq<int>, rank: int): string
    requires |s| == 64 && -1 <= rank <= 7
    decreases 7 - rank
  {
    if rank == 7 then ""
    else RanksAbove(s, rank + 1) + RankField(s, rank + 1) + (if rank + 1 > 0 then "/" else "")
  }

  /** The ranks written so far and the ranks still to come make up the
      whole board field. */
  lemma {:induction false} RanksAboveThenBelow(s: seq<int>, rank: int)
    requires |s| == 64 && -1 <= rank <= 7
    ensures RanksAbove(s, rank) + BoardFrom(s, rank) == BoardField(s)
    decreases 7 - rank
  {
    if rank < 7 {
      RanksAboveThenBelow(s, rank + 1);
      var row := RankField(s, rank + 1) + (if rank + 1 > 0 then "/" else "");
      assert BoardFrom(s, rank + 1) == row + BoardFrom(s, rank);
      AppendAssoc(RanksAbove(s, rank + 1), row, BoardFrom(s, rank));
      AppendAssoc(RanksAbove(s, rank + 1), RankField(s, rank + 1), if rank + 1 > 0 then "/" else "");
    }
  }

  /** The letter c when the right is held, nothing otherwise. */
  function Letter(held: bool, c: char): (r: string)
    ensures r == [c] || r == []
  {
    if held then [c] else []
  }

  /** The castling field is the four letters appended one right at a time,
      or "-" when that leaves nothing. */
  lemma CastlingFieldLetters(c: CastlingRights)
    ensures var held := Letter(c.whiteKingSide, 'K') + Letter(c.whiteQueenSide, 'Q') +
      Letter(c.blackKingSide, 'k') + Letter(c.blackQueenSide, 'q');
      CastlingField(c) == if held == "" then "-" else held
  {
    var white := Letter(c.whiteKingSide, 'K') + Letter(c.whiteQueenSide, 'Q');
    assert SideLetters(c.whiteKingSide, c.whiteQueenSide, 'K', 'Q') == white;
    assert SideLetters(c.blackKingSide, c.blackQueenSide, 'k', 'q') ==
      Letter(c.blackKingSide, 'k') + Letter(c.blackQueenSide, 'q');
    AppendAssoc(white, Letter(c.blackKingSide, 'k'), Letter(c.blackQueenSide, 'q'));
  }

  /** One file of the inner loop of toFEN, read off RankText. */
  lemma RankTextStep(cells: seq<int>, file: int, empty: nat)
    requires 0 <= file < |cells|
    ensures cells[file] == EMPTY ==> RankText(cells[file..], empty) == RankText(cells[file + 1..], empty + 1)
    ensures cells[file] != EMPTY ==>
      RankText(cells[file..], empty) == EmptyRun(empty) + EnumToChar(cells[file]) + RankText(cells[file + 1..], 0)
  {
    assert cells[file..][1..] == cells[file + 1..];
  }

  /** Writing the pending run and a letter moves them from the text still
      to come to the text already written. */
  lemma FlushStep(out: string, run: string, letter: string, rest: string)
    ensures out + run + letter + rest == out + (run + letter + rest)
  {
  }

  /** The writes of setStartPos produce the value model's placement. */
  lemma StartSquaresWritten(before: seq<int>, after: seq<int>)
    requires |before| == 64 && |after| == 64
    requires forall i :: 0 <= i < 16 ==> after[i] == WHITE_HOME[i]
    requires forall i :: 16 <= i < 48 ==> after[i] == before[i]
    requires forall i :: 48 <= i < 64 ==> after[i] == BLACK_HOME[i - 48]
    ensures after == WHITE_HOME + before[16..48] + BLACK_HOME
  {
    HomeSquaresValid();
    var expected := WHITE_HOME + before[16..48] + BLACK_HOME;
    forall i | 0 <= i < 64
      ensures after[i] == expected[i]
    {
    }
  }
}
