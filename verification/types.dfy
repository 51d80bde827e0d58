/**
 * The data definitions shared by the board, the move generator and the
 * engine: the piece enumeration and castling rights of src/core/board.hpp,
 * and the move flags and move record of src/core/move.hpp.
 */
module Types {

  // Pieces are plain ints: EMPTY, the six black kinds, then the six white kinds.
  const EMPTY: int := 0
  const B_PAWN: int := 1
  const B_KNIGHT: int := 2
  const B_BISHOP: int := 3
  const B_ROOK: int := 4
  const B_QUEEN: int := 5
  const B_KING: int := 6
  const W_PAWN: int := 7
  const W_KNIGHT: int := 8
  const W_BISHOP: int := 9
  const W_ROOK: int := 10
  const W_QUEEN: int := 11
  const W_KING: int := 12

  predicate IsPiece(p: int)
  {
    EMPTY <= p <= W_KING
  }

  predicate ValidPieces(s: seq<int>)
  {
    forall i :: 0 <= i < |s| ==> IsPiece(s[i])
  }

  // Move flags are single bits (QUIET is the absence of all of them).
  const QUIET: int := 0
  const CAPTURE: int := 1
  const DOUBLE_PAWN_PUSH: int := 2
  const PROMOTION: int := 4
  const EN_PASSANT: int := 8
  const CASTLING: int := 16

  predicate IsFlagBit(bit: int)
  {
    bit == CAPTURE || bit == DOUBLE_PAWN_PUSH || bit == PROMOTION || bit == EN_PASSANT || bit == CASTLING
  }

  /** `flags & bit != 0` for a single-bit mask. The Euclidean remainder by
      2*bit keeps the low bits of the two's-complement representation, so
      this is exact for negative flags as well. */
  predicate HasFlag(flags: int, bit: int)
    requires IsFlagBit(bit)
  {
    (flags % (2 * bit)) / bit == 1
  }

  datatype Move = Move(from: int, to: int, captured: int, promotion: int, flags: int)

  /** The {-1, -1, EMPTY, EMPTY, 0} value returned for "no move". */
  const NO_MOVE: Move := Move(-1, -1, EMPTY, EMPTY, QUIET)

  datatype CastlingRights = CastlingRights(
    whiteKingSide: bool, whiteQueenSide: bool, blackKingSide: bool, blackQueenSide: bool)

  const ALL_RIGHTS: CastlingRights := CastlingRights(true, true, true, true)

  /** Every right held in `r` is also held in `c`. */
  predicate RightsWithin(r: CastlingRights, c: CastlingRights)
  {
    (r.whiteKingSide ==> c.whiteKingSide) && (r.whiteQueenSide ==> c.whiteQueenSide) &&
    (r.blackKingSide ==> c.blackKingSide) && (r.blackQueenSide ==> c.blackQueenSide)
  }

  /** A flag value holds its own bit and no other; QUIET holds none. */
  lemma FlagBitsDistinct(flags: int, bit: int)
    requires IsFlagBit(flags) && IsFlagBit(bit)
    ensures HasFlag(flags, bit) <==> flags == bit
    ensures !HasFlag(QUIET, bit)
  {
  }

  lemma MulAtLeast(n: int, d: int)
    requires n > 0 && d >= 1
    ensures n * d >= n
  {
    assert n * d == n + n * (d - 1);
  }

  /** Euclidean division is unique: a quotient and a remainder in [0, n)
      that rebuild `a` are the ones `%` gives. */
  lemma ModUnique(a: int, n: int, q: int, r: int)
    requires n > 0 && a == n * q + r && 0 <= r < n
    ensures a % n == r
  {
    var q2, r2 := a / n, a % n;
    assert a == n * q2 + r2;
    if q2 > q {
      assert n * q2 == n * q + n * (q2 - q);
      MulAtLeast(n, q2 - q);
    } else if q2 < q {
      assert n * q == n * q2 + n * (q - q2);
      MulAtLeast(n, q - q2);
    }
  }

  /** Reducing modulo a multiple of n first does not change the remainder by n. */
  lemma ModOfMod(f: int, n: int, k: int)
    requires n > 0 && k > 0
    ensures (f % (n * k)) % n == f % n
  {
    var big := n * k;
    var r := f % big;
    assert f == big * (f / big) + r;
    assert r == n * (r / n) + r % n;
    assert f == n * (k * (f / big) + r / n) + r % n by {
      assert big * (f / big) == n * (k * (f / big));
    }
    ModUnique(f, n, k * (f / big) + r / n, r % n);
  }

  /** Adding d to f adds d to its remainder when no carry leaves [0, n). */
  lemma ModAddSmall(f: int, n: int, d: int)
    requires n > 0 && 0 <= f % n + d < n
    ensures (f + d) % n == f % n + d
  {
    assert f == n * (f / n) + f % n;
    ModUnique(f + d, n, f / n, f % n + d);
  }

  lemma SetCaptureBit(f: int)
    requires !HasFlag(f, CAPTURE)
    ensures HasFlag(f + CAPTURE, CAPTURE)
    ensures HasFlag(f + CAPTURE, PROMOTION) <==> HasFlag(f, PROMOTION)
    ensures HasFlag(f + CAPTURE, CASTLING) <==> HasFlag(f, CASTLING)
  {
    assert f % 2 == 0;
    ModAddSmall(f, 2, 1);
    ModOfMod(f, 2, 4);
    ModOfMod(f, 2, 16);
    ModAddSmall(f, 8, 1);
    ModAddSmall(f, 32, 1);
  }

  lemma SetPromotionBit(f: int)
    requires !HasFlag(f, PROMOTION)
    ensures HasFlag(f + PROMOTION, PROMOTION)
    ensures HasFlag(f + PROMOTION, CAPTURE) <==> HasFlag(f, CAPTURE)
    ensures HasFlag(f + PROMOTION, CASTLING) <==> HasFlag(f, CASTLING)
  {
    assert f % 8 < 4;
    ModAddSmall(f, 8, 4);
    assert f == 2 * (f / 2) + f % 2;
    ModUnique(f + 4, 2, f / 2 + 2, f % 2);
    ModOfMod(f, 8, 4);
    var c := f % 32;
    assert c == 8 * (c / 8) + c % 8;
    ModAddSmall(f, 32, 4);
  }

  lemma SetCastlingBit(f: int)
    requires !HasFlag(f, CASTLING)
    ensures HasFlag(f + CASTLING, CASTLING)
    ensures HasFlag(f + CASTLING, CAPTURE) <==> HasFlag(f, CAPTURE)
    ensures HasFlag(f + CASTLING, PROMOTION) <==> HasFlag(f, PROMOTION)
  {
    assert f % 32 < 16;
    ModAddSmall(f, 32, 16);
    assert f == 2 * (f / 2) + f % 2;
    ModUnique(f + 16, 2, f / 2 + 8, f % 2);
    assert f == 8 * (f / 8) + f % 8;
    ModUnique(f + 16, 8, f / 8 + 2, f % 8);
  }

  /** Setting a clear CAPTURE, PROMOTION or CASTLING bit by adding it (the
      `flags |= bit` of a move builder) sets that bit and leaves the other
      two as they were. */
  lemma SetOrderBit(f: int, bit: int)
    requires (bit == CAPTURE || bit == PROMOTION || bit == CASTLING) && !HasFlag(f, bit)
    ensures HasFlag(f + bit, bit)
    ensures bit != CAPTURE ==> (HasFlag(f + bit, CAPTURE) <==> HasFlag(f, CAPTURE))
    ensures bit != PROMOTION ==> (HasFlag(f + bit, PROMOTION) <==> HasFlag(f, PROMOTION))
    ensures bit != CASTLING ==> (HasFlag(f + bit, CASTLING) <==> HasFlag(f, CASTLING))
  {
    if bit == CAPTURE {
      SetCaptureBit(f);
    } else if bit == PROMOTION {
      SetPromotionBit(f);
    } else {
      SetCastlingBit(f);
    }
  }
}
