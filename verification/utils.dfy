/**
 * Square-coordinate helpers of src/core/utils.hpp.
 *
 * A square is an index rank*8 + file. The C++ helpers divide with `/` and `%`,
 * which truncate toward zero; Dafny's operators are Euclidean, so the
 * truncating versions are written out here and used for every square, on the
 * board or not.
 */
module Utils {

  function Abs(x: int): int
  {
    if x < 0 then -x else x
  }

  /** C++ integer division: truncates toward zero. The quotient has the
      sign of the dividend, and `b` times it is the multiple of `b` nearest
      the dividend on the side of zero. */
  function TruncDiv(a: int, b: int): (q: int)
    requires b > 0
    ensures a >= 0 ==> q >= 0 && b * q <= a < b * q + b
    ensures a < 0 ==> q <= 0 && b * q - b < a <= b * q
  {
    if a >= 0 then a / b else -((-a) / b)
  }

  /** C++ remainder: takes the sign of the dividend. */
  function TruncMod(a: int, b: int): (r: int)
    requires b > 0
    ensures a >= 0 ==> 0 <= r < b
    ensures a < 0 ==> -b < r <= 0
    ensures a == b * TruncDiv(a, b) + r
  {
    a - b * TruncDiv(a, b)
  }

  function Rank(square: int): int
  {
    TruncDiv(square, 8)
  }

  function File(square: int): int
  {
    TruncMod(square, 8)
  }

  predicate OnBoard(square: int)
  {
    0 <= square < 64
  }

  /** 'a' + file; the file lies in -7..7, so the character is always defined. */
  function FileChar(square: int): (c: char)
    ensures OnBoard(square) ==> 'a' <= c <= 'h'
  {
    (('a' as int) + File(square)) as char
  }

  /** The squares whose rank character '1' + rank stays inside ASCII. */
  predicate RankCharInAscii(square: int)
  {
    -392 <= square < 632
  }

  /** '1' + rank. */
  function RankChar(square: int): (c: char)
    requires RankCharInAscii(square)
    ensures OnBoard(square) ==> '1' <= c <= '8'
  {
    (('1' as int) + Rank(square)) as char
  }

  predicate ValidRank(square: int)
  {
    Rank(square) < 8 && Rank(square) >= 0 && File(square) < 8 && File(square) >= 0
  }

  /** On the board, rank and file are the Euclidean quotient and remainder,
      both in 0..7, and they rebuild the square. */
  lemma RankFileOnBoard(square: int)
    requires OnBoard(square)
    ensures 0 <= Rank(square) < 8 && 0 <= File(square) < 8
    ensures Rank(square) * 8 + File(square) == square
    ensures Rank(square) == square / 8 && File(square) == square % 8
  {
  }

  /** For every integer, rank and file rebuild the square as rank*8+file;
      the file has the square's sign and lies strictly between -8 and 8, and
      the rank is the quotient rounded toward zero. */
  lemma RankFileTruncate(square: int)
    ensures Rank(square) * 8 + File(square) == square
    ensures square >= 0 ==> 0 <= File(square) < 8 && 0 <= Rank(square)
    ensures square < 0 ==> -8 < File(square) <= 0 && Rank(square) <= 0
    ensures Abs(Rank(square)) == Abs(square) / 8
  {
  }

  /** ValidRank accepts exactly the on-board squares, for every integer. */
  lemma ValidRankIffOnBoard(square: int)
    ensures ValidRank(square) <==> OnBoard(square)
  {
    if square < 0 {
      if square > -8 {
        assert TruncDiv(square, 8) == 0;
        assert File(square) == square;
      } else {
        assert Rank(square) < 0;
      }
    } else if square >= 64 {
      assert Rank(square) >= 8;
    }
  }

  /** A square is determined by its file and rank characters. */
  lemma SquareCharsDetermineSquare(a: int, b: int)
    requires OnBoard(a) && OnBoard(b)
    requires FileChar(a) == FileChar(b) && RankChar(a) == RankChar(b)
    ensures a == b
  {
    RankFileOnBoard(a);
    RankFileOnBoard(b);
  }
}
