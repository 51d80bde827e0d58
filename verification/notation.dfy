/**
 * The text side of src/core/board.cpp: the piece letters (EnumToChar), the
 * Forsyth-Edwards serialiser toFEN (section 16.1 of the PGN standard), and
 * the input parsers and matchers parseSquare, parseMove, findMatchingMove
 * and IsMoveLegal.
 */
module Notation {
  import opened Types
  import opened Utils
  import opened MoveText
  import opened Positions
  import opened Legality

  // ---- piece letters ------------------------------------------------------

  /** EnumToChar: lower case for black, upper case for white, "." for an
      empty square and "" for a value outside the enumeration. */
  function EnumToChar(piece: int): (r: string)
    ensures IsPiece(piece) <==> |r| == 1
    ensures piece == EMPTY ==> r == "."
    ensures B_PAWN <= piece <= B_KING ==> 'a' <= r[0] <= 'z'
    ensures W_PAWN <= piece <= W_KING ==> 'A' <= r[0] <= 'Z'
  {
    if piece == EMPTY then "."
    else if piece == B_PAWN then "p"
    else if piece == B_BISHOP then "b"
    else if piece == B_KNIGHT then "n"
    else if piece == B_ROOK then "r"
    else if piece == B_QUEEN then "q"
    else if piece == B_KING then "k"
    else if piece == W_PAWN then "P"
    else if piece == W_BISHOP then "B"
    else if piece == W_KNIGHT then "N"
    else if piece == W_ROOK then "R"
    else if piece == W_QUEEN then "Q"
    else if piece == W_KING then "K"
    else ""
  }

  /** Different pieces get different letters, and a white piece's letter
      is the upper-case form of the black piece of the same kind. */
  lemma EnumToCharDistinct(a: int, b: int)
    requires IsPiece(a) && IsPiece(b)
    ensures EnumToChar(a) == EnumToChar(b) ==> a == b
    ensures B_PAWN <= a <= B_KING ==> EnumToChar(a + 6)[0] as int == EnumToChar(a)[0] as int - 32
  {
  }

  // ---- numbers ------------------------------------------------------------

  predicate IsDigit(c: char)
  {
    '0' <= c <= '9'
  }

  predicate AllDigits(str: string)
  {
    forall i :: 0 <= i < |str| ==> IsDigit(str[i])
  }

  function DigitChar(d: int): (c: char)
    requires 0 <= d <= 9
    ensures IsDigit(c)
  {
    (('0' as int) + d) as char
  }

  function DigitValue(c: char): int
    requires IsDigit(c)
  {
    (c as int) - ('0' as int)
  }

  /** std::to_string of a non-negative value: decimal, no leading zero. */
  function NatToString(n: nat): (r: string)
    ensures |r| >= 1 && AllDigits(r)
    ensures r[0] == '0' ==> n == 0
    decreases n
  {
    if n < 10 then [DigitChar(n)] else NatToString(n / 10) + [DigitChar(n % 10)]
  }

  /** The value of a string of decimal digits. */
  function DigitsValue(str: string): nat
    requires AllDigits(str)
  {
    if str == [] then 0 else 10 * DigitsValue(str[..|str| - 1]) + DigitValue(str[|str| - 1])
  }

  lemma {:induction false} NatToStringRoundTrip(n: nat)
    ensures DigitsValue(NatToString(n)) == n
    decreases n
  {
    if n >= 10 {
      NatToStringRoundTrip(n / 10);
      var r := NatToString(n);
      assert r[..|r| - 1] == NatToString(n / 10);
    }
  }

  /** std::to_string of an int: a minus sign before the digits of a
      negative value. */
  function IntToString(n: int): (r: string)
    ensures |r| >= 1
    ensures r[0] == '-' <==> n < 0
    ensures n >= 0 ==> AllDigits(r) && DigitsValue(r) == n
    ensures n < 0 ==> AllDigits(r[1..]) && DigitsValue(r[1..]) == -n
  {
    if n < 0 then
      NatToStringRoundTrip(-n);
      "-" + NatToString(-n)
    else
      NatToStringRoundTrip(n);
      NatToString(n)
  }

  // ---- the board field of toFEN -------------------------------------------

  /** The letters a rank field may contain besides digits. */
  predicate IsPieceLetter(c: char)
  {
    c in "pnbrqkPNBRQK."
  }

  /** The pending run of empty squares, written when it is non-zero. */
  function EmptyRun(empty: nat): string
  {
    if empty > 0 then NatToString(empty) else ""
  }

  /**
   * The inner loop of toFEN over the remaining cells of one rank, with
   * `empty` empty squares already counted and not yet written: an empty
   * cell adds to the count, a piece first flushes the count and then
   * writes its letter, and the end of the rank flushes the count.
   */
  function RankText(cells: seq<int>, empty: nat): string
    decreases |cells|
  {
    if cells == [] then EmptyRun(empty)
    else if cells[0] == EMPTY then RankText(cells[1..], empty + 1)
    else EmptyRun(empty) + EnumToChar(cells[0]) + RankText(cells[1..], 0)
  }

  function RankCells(s: seq<int>, rank: int): (cells: seq<int>)
    requires |s| == 64 && 0 <= rank < 8
    ensures |cells| == 8
  {
    s[rank * 8 .. rank * 8 + 8]
  }

  function RankField(s: seq<int>, rank: int): string
    requires |s| == 64 && 0 <= rank < 8
  {
    RankText(RankCells(s, rank), 0)
  }

  /** The ranks from `rank` down to 1, each but the last followed by '/'. */
  function BoardFrom(s: seq<int>, rank: int): string
    requires |s| == 64 && -1 <= rank < 8
    decreases rank + 1
  {
    if rank < 0 then ""
    else RankField(s, rank) + (if rank > 0 then "/" else "") + BoardFrom(s, rank - 1)
  }

  /** The first field of the FEN record: rank 8 first, rank 1 last. */
  function BoardField(s: seq<int>): string
    requires |s| == 64
  {
    BoardFrom(s, 7)
  }

  /** The number of occurrences of c in str. */
  function Count(str: string, c: char): nat
  {
    if str == [] then 0 else (if str[0] == c then 1 else 0) + Count(str[1..], c)
  }

  lemma {:induction false} CountAppend(a: string, b: string, c: char)
    ensures Count(a + b, c) == Count(a, c) + Count(b, c)
  {
    if a != [] {
      assert (a + b)[0] == a[0];
      assert (a + b)[1..] == a[1..] + b;
      CountAppend(a[1..], b, c);
    } else {
      assert a + b == b;
    }
  }

  lemma {:induction false} CountAbsent(str: string, c: char)
    requires forall i :: 0 <= i < |str| ==> str[i] != c
    ensures Count(str, c) == 0
  {
    if str != [] {
      CountAbsent(str[1..], c);
    }
  }

  /** The field written from rank r down holds exactly r separators. */
  lemma {:induction false} BoardFromSlashes(s: seq<int>, rank: int)
    requires |s| == 64 && ValidPieces(s) && 0 <= rank < 8
    ensures Count(BoardFrom(s, rank), '/') == rank
    decreases rank
  {
    var field := RankField(s, rank);
    RankTextChars(RankCells(s, rank), 0);
    CountAbsent(field, '/');
    var sep := if rank > 0 then "/" else "";
    CountAppend(field, sep, '/');
    CountAppend(field + sep, BoardFrom(s, rank - 1), '/');
    if rank > 0 {
      BoardFromSlashes(s, rank - 1);
    } else {
      assert BoardFrom(s, -1) == "";
    }
  }

  /** How many squares a rank text covers: a digit counts its value, any
      other character one square. */
  function Width(str: string): int
  {
    if str == [] then 0
    else (if IsDigit(str[0]) then DigitValue(str[0]) else 1) + Width(str[1..])
  }

  lemma {:induction false} WidthAppend(a: string, b: string)
    ensures Width(a + b) == Width(a) + Width(b)
  {
    if a != [] {
      assert (a + b)[0] == a[0];
      assert (a + b)[1..] == a[1..] + b;
      WidthAppend(a[1..], b);
    } else {
      assert a + b == b;
    }
  }

  /** No two digits stand next to each other. */
  predicate NoAdjacentDigits(str: string)
  {
    forall i :: 0 <= i < |str| - 1 ==> !(IsDigit(str[i]) && IsDigit(str[i + 1]))
  }

  lemma PieceLetter(piece: int)
    requires IsPiece(piece) && piece != EMPTY
    ensures |EnumToChar(piece)| == 1 && !IsDigit(EnumToChar(piece)[0])
  {
  }

  lemma EmptyRunSmall(empty: nat)
    requires empty <= 9
    ensures |EmptyRun(empty)| <= 1
    ensures Width(EmptyRun(empty)) == empty
  {
    if empty > 0 {
      assert EmptyRun(empty) == [DigitChar(empty)];
    }
  }

  /** A rank text covers the pending empty squares plus every cell. */
  lemma {:induction false} RankTextWidth(cells: seq<int>, empty: nat)
    requires ValidPieces(cells) && empty + |cells| <= 9
    ensures Width(RankText(cells, empty)) == empty + |cells|
    decreases |cells|
  {
    if cells == [] {
      EmptyRunSmall(empty);
    } else if cells[0] == EMPTY {
      RankTextWidth(cells[1..], empty + 1);
    } else {
      EmptyRunSmall(empty);
      PieceLetter(cells[0]);
      RankTextWidth(cells[1..], 0);
      var letter := EnumToChar(cells[0]);
      WidthAppend(EmptyRun(empty), letter);
      WidthAppend(EmptyRun(empty) + letter, RankText(cells[1..], 0));
      assert Width(letter) == 1;
    }
  }

  /** Joining two strings whose meeting point is not two digits. */
  lemma NoAdjacentJoin(a: string, b: string)
    requires NoAdjacentDigits(a) && NoAdjacentDigits(b)
    requires a == [] || b == [] || !IsDigit(a[|a| - 1]) || !IsDigit(b[0])
    ensures NoAdjacentDigits(a + b)
  {
    var ab := a + b;
    forall i | 0 <= i < |ab| - 1
      ensures !(IsDigit(ab[i]) && IsDigit(ab[i + 1]))
    {
      if i + 1 < |a| {
        assert ab[i] == a[i] && ab[i + 1] == a[i + 1];
      } else if i >= |a| {
        assert ab[i] == b[i - |a|] && ab[i + 1] == b[i + 1 - |a|];
      }
    }
  }

  /** Runs of empty squares are merged, so no two digits are adjacent. */
  lemma {:induction false} RankTextNoAdjacentDigits(cells: seq<int>, empty: nat)
    requires ValidPieces(cells) && empty + |cells| <= 9
    ensures NoAdjacentDigits(RankText(cells, empty))
    decreases |cells|
  {
    if cells == [] {
      EmptyRunSmall(empty);
    } else if cells[0] == EMPTY {
      RankTextNoAdjacentDigits(cells[1..], empty + 1);
    } else {
      EmptyRunSmall(empty);
      PieceLetter(cells[0]);
      RankTextNoAdjacentDigits(cells[1..], 0);
      var letter := EnumToChar(cells[0]);
      NoAdjacentJoin(EmptyRun(empty), letter);
      NoAdjacentJoin(EmptyRun(empty) + letter, RankText(cells[1..], 0));
    }
  }

  /** The board field: eight ranks separated by exactly seven '/', each
      rank covering eight squares with no two digits side by side. */
  lemma BoardFieldShape(s: seq<int>)
    requires |s| == 64 && ValidPieces(s)
    ensures Count(BoardField(s), '/') == 7
    ensures forall r :: 0 <= r < 8 ==> Width(RankField(s, r)) == 8 && NoAdjacentDigits(RankField(s, r))
  {
    BoardFromSlashes(s, 7);
    forall r | 0 <= r < 8
      ensures Width(RankField(s, r)) == 8 && NoAdjacentDigits(RankField(s, r))
    {
      RankTextWidth(RankCells(s, r), 0);
      RankTextNoAdjacentDigits(RankCells(s, r), 0);
    }
  }

  // ---- the other fields ---------------------------------------------------

  function CastlingOrder(c: char): int
  {
    if c == 'K' then 0 else if c == 'Q' then 1 else if c == 'k' then 2 else 3
  }

  /** The rights of one colour as written: king side first. */
  function SideLetters(kingSide: bool, queenSide: bool, king: char, queen: char): (r: string)
    ensures |r| <= 2 && (forall i :: 0 <= i < |r| ==> r[i] == king || r[i] == queen)
    ensures |r| == 2 ==> r[0] == king && r[1] == queen
  {
    (if kingSide then [king] else []) + (if queenSide then [queen] else [])
  }

  /** The castling field: the letters of the rights held, in the order
      K, Q, k, q, or "-" when none is held. */
  function CastlingField(c: CastlingRights): (r: string)
    ensures r == "-" <==> !(c.whiteKingSide || c.whiteQueenSide || c.blackKingSide || c.blackQueenSide)
    ensures 'K' in r <==> c.whiteKingSide
    ensures 'Q' in r <==> c.whiteQueenSide
    ensures 'k' in r <==> c.blackKingSide
    ensures 'q' in r <==> c.blackQueenSide
  {
    var held := SideLetters(c.whiteKingSide, c.whiteQueenSide, 'K', 'Q') +
      SideLetters(c.blackKingSide, c.blackQueenSide, 'k', 'q');
    assert held != [] ==> held[0] in "KQkq";
    if held == "" then "-" else held
  }

  /** The letters of the castling field come in the order K, Q, k, q. */
  lemma CastlingFieldOrdered(c: CastlingRights)
    ensures forall i, j :: 0 <= i < j < |CastlingField(c)| ==>
      CastlingOrder(CastlingField(c)[i]) < CastlingOrder(CastlingField(c)[j])
  {
    var white := SideLetters(c.whiteKingSide, c.whiteQueenSide, 'K', 'Q');
    var black := SideLetters(c.blackKingSide, c.blackQueenSide, 'k', 'q');
    var r := white + black;
    forall i, j | 0 <= i < j < |r|
      ensures CastlingOrder(r[i]) < CastlingOrder(r[j])
    {
      if j < |white| {
        assert r[i] == white[i] && r[j] == white[j];
      } else if i >= |white| {
        assert r[i] == black[i - |white|] && r[j] == black[j - |white|];
      } else {
        assert r[i] == white[i] && r[j] == black[j - |white|];
      }
    }
  }

  /** The en-passant field: "-" for -1, else the square's file and rank
      characters. */
  function EnPassantField(ep: int): (r: string)
    requires RankCharInAscii(ep)
    ensures r == "-" <==> ep == -1
    ensures ep != -1 ==> |r| == 2 && r[0] == FileChar(ep) && r[1] == RankChar(ep)
  {
    if ep == -1 then "-" else [FileChar(ep), RankChar(ep)]
  }

  /** toFEN: six fields separated by single spaces. */
  function Fen(p: Position): string
    requires |p.squares| == 64 && RankCharInAscii(p.enPassantSquare)
  {
    BoardField(p.squares) + " " + (if p.whiteToMove then "w" else "b") + " " +
    CastlingField(p.castling) + " " + EnPassantField(p.enPassantSquare) + " " +
    IntToString(p.halfmoveClock) + " " + IntToString(p.fullMoveNumber)
  }

  predicate NoSpace(str: string)
  {
    forall i :: 0 <= i < |str| ==> str[i] != ' '
  }

  /** A rank text holds only digits and piece letters. */
  lemma {:induction false} RankTextChars(cells: seq<int>, empty: nat)
    requires ValidPieces(cells)
    ensures forall i :: 0 <= i < |RankText(cells, empty)| ==>
      IsDigit(RankText(cells, empty)[i]) || IsPieceLetter(RankText(cells, empty)[i])
    decreases |cells|
  {
    if cells == [] {
    } else if cells[0] == EMPTY {
      RankTextChars(cells[1..], empty + 1);
    } else {
      RankTextChars(cells[1..], 0);
      var head := EmptyRun(empty) + EnumToChar(cells[0]);
      var r := head + RankText(cells[1..], 0);
      forall i | 0 <= i < |r|
        ensures IsDigit(r[i]) || IsPieceLetter(r[i])
      {
        if i >= |head| {
          assert r[i] == RankText(cells[1..], 0)[i - |head|];
        } else if i >= |EmptyRun(empty)| {
          assert r[i] == EnumToChar(cells[0])[i - |EmptyRun(empty)|];
        } else {
          assert r[i] == EmptyRun(empty)[i];
        }
      }
    }
  }

  /** The board field holds only digits, piece letters and '/'. */
  lemma {:induction false} BoardFromChars(s: seq<int>, rank: int)
    requires |s| == 64 && ValidPieces(s) && -1 <= rank < 8
    ensures forall i :: 0 <= i < |BoardFrom(s, rank)| ==>
      IsDigit(BoardFrom(s, rank)[i]) || IsPieceLetter(BoardFrom(s, rank)[i]) || BoardFrom(s, rank)[i] == '/'
    decreases rank + 1
  {
    if rank >= 0 {
      BoardFromChars(s, rank - 1);
      RankTextChars(RankCells(s, rank), 0);
      var head := RankField(s, rank) + (if rank > 0 then "/" else "");
      var r := head + BoardFrom(s, rank - 1);
      forall i | 0 <= i < |r|
        ensures IsDigit(r[i]) || IsPieceLetter(r[i]) || r[i] == '/'
      {
        if i >= |head| {
          assert r[i] == BoardFrom(s, rank - 1)[i - |head|];
        } else if i >= |RankField(s, rank)| {
          assert r[i] == '/';
        } else {
          assert r[i] == RankField(s, rank)[i];
        }
      }
    }
  }

  lemma BoardFieldNoSpace(s: seq<int>)
    requires |s| == 64 && ValidPieces(s)
    ensures NoSpace(BoardField(s))
  {
    BoardFromChars(s, 7);
  }

  lemma IntToStringNoSpace(n: int)
    ensures NoSpace(IntToString(n))
  {
    var r := IntToString(n);
    if n < 0 {
      forall i | 1 <= i < |r|
        ensures r[i] != ' '
      {
        assert r[i] == r[1..][i - 1];
      }
    }
  }

  /** Two strings without a space join into one without a space. */
  lemma NoSpaceJoin(a: string, b: string)
    requires NoSpace(a) && NoSpace(b)
    ensures NoSpace(a + b)
  {
    forall i | 0 <= i < |a + b|
      ensures (a + b)[i] != ' '
    {
      if i < |a| {
        assert (a + b)[i] == a[i];
      } else {
        assert (a + b)[i] == b[i - |a|];
      }
    }
  }

  lemma CastlingFieldNoSpace(c: CastlingRights)
    ensures NoSpace(CastlingField(c))
  {
    var white := SideLetters(c.whiteKingSide, c.whiteQueenSide, 'K', 'Q');
    var black := SideLetters(c.blackKingSide, c.blackQueenSide, 'k', 'q');
    assert NoSpace(white) && NoSpace(black);
    NoSpaceJoin(white, black);
  }

  /** The en-passant field holds a space exactly when the rank character
      '1' + rank is the space itself, that is for the eight values whose
      rank is -17. The file character is never a space. */
  lemma EnPassantFieldNoSpace(ep: int)
    requires RankCharInAscii(ep)
    ensures NoSpace(EnPassantField(ep)) <==> !(-143 <= ep <= -136)
  {
    if ep != -1 {
      var r := EnPassantField(ep);
      assert r[0] != ' ';
      assert r[1] == ' ' <==> Rank(ep) == -17;
    }
  }

  /** For any en-passant value a board can hold, the record has exactly
      six fields: no field contains a space. */
  lemma FenHasSixFields(p: Position)
    requires |p.squares| == 64 && ValidPieces(p.squares)
    requires RankCharInAscii(p.enPassantSquare) && !(-143 <= p.enPassantSquare <= -136)
    ensures Count(Fen(p), ' ') == 5
  {
    var a, b, c := BoardField(p.squares), if p.whiteToMove then "w" else "b", CastlingField(p.castling);
    var d, e, f := EnPassantField(p.enPassantSquare), IntToString(p.halfmoveClock), IntToString(p.fullMoveNumber);
    BoardFieldNoSpace(p.squares);
    IntToStringNoSpace(p.halfmoveClock);
    IntToStringNoSpace(p.fullMoveNumber);
    EnPassantFieldNoSpace(p.enPassantSquare);
    CastlingFieldNoSpace(p.castling);
    assert NoSpace(b);
    assert Fen(p) == a + " " + b + " " + c + " " + d + " " + e + " " + f;
    CountSpaces(a, b, c, d, e, f);
  }

  lemma CountSpaces(a: string, b: string, c: string, d: string, e: string, f: string)
    requires NoSpace(a) && NoSpace(b) && NoSpace(c) && NoSpace(d) && NoSpace(e) && NoSpace(f)
    ensures Count(a + " " + b + " " + c + " " + d + " " + e + " " + f, ' ') == 5
  {
    CountAbsent(a, ' ');
    CountAbsent(b, ' ');
    CountAbsent(c, ' ');
    CountAbsent(d, ' ');
    CountAbsent(e, ' ');
    CountAbsent(f, ' ');
    CountAppend(a, " ", ' ');
    CountAppend(a + " ", b, ' ');
    CountAppend(a + " " + b, " ", ' ');
    CountAppend(a + " " + b + " ", c, ' ');
    CountAppend(a + " " + b + " " + c, " ", ' ');
    CountAppend(a + " " + b + " " + c + " ", d, ' ');
    CountAppend(a + " " + b + " " + c + " " + d, " ", ' ');
    CountAppend(a + " " + b + " " + c + " " + d + " ", e, ' ');
    CountAppend(a + " " + b + " " + c + " " + d + " " + e, " ", ' ');
    CountAppend(a + " " + b + " " + c + " " + d + " " + e + " ", f, ' ');
  }

  // The texts of the five kinds of rank in the initial placement; the
  // piece values are spelled out so that the verifier can compute them.

  lemma WhiteBackRankText()
    ensures RankText(WHITE_HOME[..8], 0) == "RNBQKBNR"
  {
    assert WHITE_HOME[..8] == [10, 8, 9, 11, 12, 9, 8, 10];
    assert RankText([10, 8, 9, 11, 12, 9, 8, 10], 0) == "RNBQKBNR";
  }

  lemma WhitePawnRankText()
    ensures RankText(WHITE_HOME[8..], 0) == "PPPPPPPP"
  {
    assert WHITE_HOME[8..] == [7, 7, 7, 7, 7, 7, 7, 7];
    assert RankText([7, 7, 7, 7, 7, 7, 7, 7], 0) == "PPPPPPPP";
  }

  lemma BlackPawnRankText()
    ensures RankText(BLACK_HOME[..8], 0) == "pppppppp"
  {
    assert BLACK_HOME[..8] == [1, 1, 1, 1, 1, 1, 1, 1];
    assert RankText([1, 1, 1, 1, 1, 1, 1, 1], 0) == "pppppppp";
  }

  lemma BlackBackRankText()
    ensures RankText(BLACK_HOME[8..], 0) == "rnbqkbnr"
  {
    assert BLACK_HOME[8..] == [4, 2, 3, 5, 6, 3, 2, 4];
    assert RankText([4, 2, 3, 5, 6, 3, 2, 4], 0) == "rnbqkbnr";
  }

  lemma EmptyRankText()
    ensures RankText([EMPTY, EMPTY, EMPTY, EMPTY, EMPTY, EMPTY, EMPTY, EMPTY], 0) == "8"
  {
    assert [EMPTY, EMPTY, EMPTY, EMPTY, EMPTY, EMPTY, EMPTY, EMPTY] == [0, 0, 0, 0, 0, 0, 0, 0];
    assert RankText([0, 0, 0, 0, 0, 0, 0, 0], 0) == "8";
  }

  /** The cells of each rank after setStartPos on an empty board. */
  lemma StartRankCells(s: seq<int>)
    requires |s| == 64 && s[..16] == WHITE_HOME && s[48..] == BLACK_HOME
    requires forall i :: 16 <= i < 48 ==> s[i] == EMPTY
    ensures RankCells(s, 0) == WHITE_HOME[..8] && RankCells(s, 1) == WHITE_HOME[8..]
    ensures RankCells(s, 6) == BLACK_HOME[..8] && RankCells(s, 7) == BLACK_HOME[8..]
    ensures forall r :: 2 <= r < 6 ==> RankCells(s, r) == [EMPTY, EMPTY, EMPTY, EMPTY, EMPTY, EMPTY, EMPTY, EMPTY]
  {
    assert s[..8] == s[..16][..8] && s[8..16] == s[..16][8..];
    assert s[48..56] == s[48..][..8] && s[56..] == s[48..][8..];
    forall r | 2 <= r < 6
      ensures RankCells(s, r) == [EMPTY, EMPTY, EMPTY, EMPTY, EMPTY, EMPTY, EMPTY, EMPTY]
    {
      assert forall k :: 0 <= k < 8 ==> RankCells(s, r)[k] == s[r * 8 + k];
    }
  }

  lemma StartValid(s: seq<int>)
    requires |s| == 64 && s[..16] == WHITE_HOME && s[48..] == BLACK_HOME
    requires forall i :: 16 <= i < 48 ==> s[i] == EMPTY
    ensures ValidPieces(s)
  {
    HomeSquaresValid();
    assert forall i :: 0 <= i < 16 ==> s[i] == WHITE_HOME[i];
    assert forall i :: 48 <= i < 64 ==> s[i] == BLACK_HOME[i - 48];
  }

  /** The rank fields of the standard initial placement. */
  lemma StartRankFields(s: seq<int>)
    requires |s| == 64 && s[..16] == WHITE_HOME && s[48..] == BLACK_HOME
    requires forall i :: 16 <= i < 48 ==> s[i] == EMPTY
    ensures ValidPieces(s)
    ensures RankField(s, 0) == "RNBQKBNR" && RankField(s, 1) == "PPPPPPPP"
    ensures RankField(s, 6) == "pppppppp" && RankField(s, 7) == "rnbqkbnr"
    ensures forall r :: 2 <= r < 6 ==> RankField(s, r) == "8"
  {
    StartValid(s);
    StartRankCells(s);
    WhiteBackRankText();
    WhitePawnRankText();
    BlackPawnRankText();
    BlackBackRankText();
    EmptyRankText();
  }

  /** The record of the standard initial position, joined field by field
      the way toFEN joins it. */
  lemma StartFenPieces()
    ensures "rnbqkbnr/pppppppp/8/8/8/8/PPPPPPPP/RNBQKBNR" ==
      "rnbqkbnr" + "/" + ("pppppppp" + "/" + ("8" + "/" + ("8" + "/" + ("8" + "/" + ("8" + "/" +
      ("PPPPPPPP" + "/" + "RNBQKBNR"))))))
    ensures "rnbqkbnr/pppppppp/8/8/8/8/PPPPPPPP/RNBQKBNR w KQkq - 0 1" ==
      "rnbqkbnr/pppppppp/8/8/8/8/PPPPPPPP/RNBQKBNR" + " " + "w" + " " + "KQkq" + " " + "-" + " " + "0" + " " + "1"
  {
  }

  /** The board field of the standard initial placement. */
  lemma StartBoardField(s: seq<int>)
    requires |s| == 64 && s[..16] == WHITE_HOME && s[48..] == BLACK_HOME
    requires forall i :: 16 <= i < 48 ==> s[i] == EMPTY
    ensures ValidPieces(s)
    ensures BoardField(s) == "rnbqkbnr/pppppppp/8/8/8/8/PPPPPPPP/RNBQKBNR"
  {
    StartRankFields(s);
    assert BoardFrom(s, 0) == "RNBQKBNR" by {
      assert BoardFrom(s, -1) == "";
    }
    assert BoardFrom(s, 1) == "PPPPPPPP" + "/" + BoardFrom(s, 0);
    assert BoardFrom(s, 2) == "8" + "/" + BoardFrom(s, 1);
    assert BoardFrom(s, 3) == "8" + "/" + BoardFrom(s, 2);
    assert BoardFrom(s, 4) == "8" + "/" + BoardFrom(s, 3);
    assert BoardFrom(s, 5) == "8" + "/" + BoardFrom(s, 4);
    assert BoardFrom(s, 6) == "pppppppp" + "/" + BoardFrom(s, 5);
    assert BoardFrom(s, 7) == "rnbqkbnr" + "/" + BoardFrom(s, 6);
    StartFenPieces();
  }

  /** After setStartPos on an empty board, the board and castling fields
      are those of the standard initial position; with white to move, no
      en-passant square and clocks 0 and 1 the whole record is the
      standard one. */
  lemma StartPositionFen(p: Position)
    requires |p.squares| == 64
    requires forall i :: 0 <= i < 64 ==> p.squares[i] == EMPTY
    ensures ValidPieces(SetStartPos(p).squares)
    ensures BoardField(SetStartPos(p).squares) == "rnbqkbnr/pppppppp/8/8/8/8/PPPPPPPP/RNBQKBNR"
    ensures CastlingField(SetStartPos(p).castling) == "KQkq"
    ensures p.whiteToMove && p.enPassantSquare == -1 && p.halfmoveClock == 0 && p.fullMoveNumber == 1 ==>
      Fen(SetStartPos(p)) == "rnbqkbnr/pppppppp/8/8/8/8/PPPPPPPP/RNBQKBNR w KQkq - 0 1"
  {
    var q := SetStartPos(p);
    StartBoardField(q.squares);
    StartFields();
    if p.whiteToMove && p.enPassantSquare == -1 && p.halfmoveClock == 0 && p.fullMoveNumber == 1 {
      StartFenPieces();
    }
  }

  /** The fields after the board in the start position. */
  lemma StartFields()
    ensures CastlingField(ALL_RIGHTS) == "KQkq"
    ensures EnPassantField(-1) == "-"
    ensures IntToString(0) == "0" && IntToString(1) == "1"
  {
    assert CastlingField(ALL_RIGHTS) == "KQkq";
  }

  // ---- parsing and matching -----------------------------------------------

  /** parseSquare: two characters, a file 'a'..'h' then a rank '1'..'8',
      give file + 8 * rank; anything else gives -1. */
  function ParseSquare(str: string): (r: int)
    ensures -1 <= r < 64
    ensures r != -1 <==> |str| == 2 && 'a' <= str[0] <= 'h' && '1' <= str[1] <= '8'
    ensures r != -1 ==> FileChar(r) == str[0] && RankChar(r) == str[1]
  {
    if |str| != 2 then -1
    else if str[0] < 'a' || str[0] > 'h' then -1
    else if str[1] < '1' || str[1] > '8' then -1
    else (str[0] as int - 'a' as int) + (str[1] as int - '1' as int) * 8
  }

  /** The file and rank characters of a square parse back to it. */
  lemma ParseSquareRoundTrip(sq: int)
    requires OnBoard(sq)
    ensures ParseSquare([FileChar(sq), RankChar(sq)]) == sq
  {
    var r := ParseSquare([FileChar(sq), RankChar(sq)]);
    SquareCharsDetermineSquare(r, sq);
  }

  /** An en-passant field of an on-board square parses back to it. */
  lemma EnPassantFieldRoundTrip(ep: int)
    requires OnBoard(ep)
    ensures ParseSquare(EnPassantField(ep)) == ep
  {
    ParseSquareRoundTrip(ep);
  }

  /** parseMove: four characters give the two parsed squares (either may
      be -1), anything else gives from = to = -1; the other fields are
      always EMPTY, EMPTY and QUIET. */
  function ParseMove(str: string): (m: Move)
    ensures m.captured == EMPTY && m.promotion == EMPTY && m.flags == QUIET
    ensures -1 <= m.from < 64 && -1 <= m.to < 64
    ensures |str| != 4 ==> m.from == -1 && m.to == -1
    ensures |str| == 4 ==>
      (m.from != -1 <==> 'a' <= str[0] <= 'h' && '1' <= str[1] <= '8') &&
      (m.to != -1 <==> 'a' <= str[2] <= 'h' && '1' <= str[3] <= '8')
    ensures |str| == 4 && m.from != -1 ==> FileChar(m.from) == str[0] && RankChar(m.from) == str[1]
    ensures |str| == 4 && m.to != -1 ==> FileChar(m.to) == str[2] && RankChar(m.to) == str[3]
  {
    if |str| != 4 then Move(-1, -1, EMPTY, EMPTY, QUIET)
    else Move(ParseSquare(str[0..2]), ParseSquare(str[2..4]), EMPTY, EMPTY, QUIET)
  }

  /** The text of a move without the PROMOTION bit parses back to its
      squares; the text of a promotion has five characters and does not
      parse. */
  lemma ParseMoveOfToString(m: Move)
    requires OnBoard(m.from) && OnBoard(m.to)
    ensures !HasFlag(m.flags, PROMOTION) ==> ParseMove(ToString(m)).from == m.from && ParseMove(ToString(m)).to == m.to
    ensures HasFlag(m.flags, PROMOTION) ==> ParseMove(ToString(m)).from == -1 && ParseMove(ToString(m)).to == -1
  {
    var text := ToString(m);
    if !HasFlag(m.flags, PROMOTION) {
      ParseSquareRoundTrip(m.from);
      ParseSquareRoundTrip(m.to);
      assert text[0..2] == [FileChar(m.from), RankChar(m.from)];
      assert text[2..4] == [FileChar(m.to), RankChar(m.to)];
    }
  }

  predicate SameSquares(a: Move, b: Move)
  {
    a.from == b.from && a.to == b.to
  }

  /** findMatchingMove: the first entry with the same origin and target as
      the input, or the {-1, -1} sentinel when there is none. */
  function FindMatchingMove(ms: seq<Move>, input: Move): (r: Move)
    ensures (exists i :: 0 <= i < |ms| && SameSquares(ms[i], input)) ==>
      exists i :: 0 <= i < |ms| && ms[i] == r && SameSquares(r, input) &&
        forall j :: 0 <= j < i ==> !SameSquares(ms[j], input)
    ensures (forall i :: 0 <= i < |ms| ==> !SameSquares(ms[i], input)) ==> r == NO_MOVE
    decreases |ms|
  {
    if ms == [] then NO_MOVE
    else if SameSquares(ms[0], input) then ms[0]
    else
      var r := FindMatchingMove(ms[1..], input);
      assert forall i :: 1 <= i < |ms| ==> ms[i] == ms[1..][i - 1];
      r
  }

  /** IsMoveLegal: some entry has the same origin and target. */
  function IsMoveLegal(move: Move, ms: seq<Move>): (b: bool)
    ensures b <==> exists i :: 0 <= i < |ms| && SameSquares(ms[i], move)
    decreases |ms|
  {
    if ms == [] then false
    else if SameSquares(ms[0], move) then true
    else
      assert forall i :: 1 <= i < |ms| ==> ms[i] == ms[1..][i - 1];
      IsMoveLegal(move, ms[1..])
  }

  /** The two searches agree: a move is accepted exactly when the matcher
      finds an entry with its squares, and otherwise the matcher returns
      the sentinel. */
  lemma MatchAgreesWithIsMoveLegal(ms: seq<Move>, input: Move)
    ensures IsMoveLegal(input, ms) ==> SameSquares(FindMatchingMove(ms, input), input)
    ensures !IsMoveLegal(input, ms) ==> FindMatchingMove(ms, input) == NO_MOVE
  {
  }

  /** Every legal move can be entered as text: its coordinate text parses
      to a move that IsMoveLegal accepts and that findMatchingMove resolves
      to a legal move with the same squares. */
  lemma LegalMovesCanBeEntered(p: Position, m: Move)
    requires |p.squares| == 64 && m in LegalMoves(p)
    ensures Printable(m)
    ensures IsMoveLegal(ParseMove(ToString(m)), LegalMoves(p))
    ensures FindMatchingMove(LegalMoves(p), ParseMove(ToString(m))) in LegalMoves(p)
    ensures SameSquares(FindMatchingMove(LegalMoves(p), ParseMove(ToString(m))), m)
  {
    LegalMovesIff(p, m);
    MoveGen.PseudoLegalIff(p.squares, p.whiteToMove, m);
    assert !HasFlag(m.flags, PROMOTION) by {
      FlagBitsDistinct(PROMOTION, PROMOTION);
      if m.flags != QUIET {
        FlagBitsDistinct(m.flags, PROMOTION);
      }
    }
    ParseMoveOfToString(m);
    var i :| 0 <= i < |LegalMoves(p)| && LegalMoves(p)[i] == m;
    assert SameSquares(LegalMoves(p)[i], ParseMove(ToString(m)));
  }
}
