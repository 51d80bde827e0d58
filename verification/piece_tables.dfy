/**
 * The two inline helpers of src/engine/piece_tables.hpp: getPieceType,
 * meant to index the six per-kind square tables, and flipSquare, which
 * mirrors a square between White's and Black's point of view.
 */
module PieceTables {
  import opened Types
  import opened Utils

  /** getPieceType as written: -1 for EMPTY, else (piece - 1) / 2 with C++
      truncating division. */
  function GetPieceType(piece: int): (t: int)
    ensures piece == EMPTY ==> t == -1
    ensures B_PAWN <= piece <= W_KING ==> 0 <= t <= 5
    ensures piece > EMPTY ==> 2 * t <= piece - 1 <= 2 * t + 1
  {
    if piece == EMPTY then -1 else TruncDiv(piece - 1, 2)
  }

  /** With the enum order EMPTY, six black kinds, six white kinds, the
      formula pairs consecutive enum entries: a black pawn shares index 0
      with a black knight, black pieces only reach 0..2 and white pieces
      only 3..5, so a white pawn gets index 3, the rook's. */
  lemma GetPieceTypeMixesKinds(piece: int)
    ensures GetPieceType(B_PAWN) == GetPieceType(B_KNIGHT) == 0
    ensures GetPieceType(B_PAWN) != GetPieceType(W_PAWN) == 3
    ensures B_PAWN <= piece <= B_KING ==> GetPieceType(piece) <= 2
    ensures W_PAWN <= piece <= W_KING ==> GetPieceType(piece) >= 3
  {
  }

  /** The kind of a piece, 0 = pawn .. 5 = king, for either colour. */
  function PieceKind(piece: int): (t: int)
    ensures piece == EMPTY ==> t == -1
    ensures B_PAWN <= piece <= W_KING ==> 0 <= t <= 5
  {
    if piece == EMPTY then -1 else (piece - 1) % 6
  }

  /** PieceKind gives a black piece and the white piece of the same kind
      the same index, and tells the six kinds of one colour apart. */
  lemma PieceKindPairsColours(a: int, b: int)
    requires B_PAWN <= a <= B_KING && B_PAWN <= b <= B_KING
    ensures PieceKind(a) == PieceKind(a + 6)
    ensures PieceKind(a) == PieceKind(b) <==> a == b
    ensures PieceKind(a) == a - B_PAWN
  {
  }

  /** flipSquare: `sq ^ 56`. On two's-complement integers this toggles bits
      3..5, the rank bits of a board square: it adds 56 and subtracts twice
      the value of those bits, which the Euclidean remainder reads off for
      negative numbers too. */
  function FlipSquare(sq: int): int
  {
    sq + 56 - 16 * ((sq % 64) / 8)
  }

  lemma DivMod64(x: int, q: int, m: int)
    requires 0 <= m < 64 && x == 64 * q + m
    ensures x % 64 == m && x / 64 == q
  {
  }

  lemma DivMod8(x: int, q: int, m: int)
    requires 0 <= m < 8 && x == 8 * q + m
    ensures x % 8 == m && x / 8 == q
  {
  }

  /** The flip keeps the bits below 3 and above 5 and replaces the rank
      bits b by 7 - b, which is b with its three bits inverted: the
      exclusive or with 56 = 0b111000, read on two's-complement integers. */
  lemma FlipSquareBits(sq: int)
    ensures FlipSquare(sq) % 8 == sq % 8
    ensures (FlipSquare(sq) % 64) / 8 == 7 - (sq % 64) / 8
    ensures FlipSquare(sq) / 64 == sq / 64
  {
    var q, m := sq / 64, sq % 64;
    var b, l := m / 8, m % 8;
    DivMod8(m, b, l);
    assert sq == 64 * q + 8 * b + l;
    var m' := 8 * (7 - b) + l;
    assert FlipSquare(sq) == 64 * q + m';
    DivMod64(FlipSquare(sq), q, m');
    DivMod8(m', 7 - b, l);
    DivMod8(sq, 8 * q + b, l);
    DivMod8(FlipSquare(sq), 8 * q + 7 - b, l);
  }

  /** Flipping twice gives the square back, for every integer. */
  lemma FlipSquareInvolution(sq: int)
    ensures FlipSquare(FlipSquare(sq)) == sq
  {
    FlipSquareBits(sq);
  }

  /** On the board the flip keeps the file and maps rank r to rank 7 - r. */
  lemma FlipSquareOnBoard(sq: int)
    requires OnBoard(sq)
    ensures OnBoard(FlipSquare(sq))
    ensures File(FlipSquare(sq)) == File(sq)
    ensures Rank(FlipSquare(sq)) == 7 - Rank(sq)
  {
    RankFileOnBoard(sq);
    var b, l := sq / 8, sq % 8;
    DivMod64(sq, 0, sq);
    assert FlipSquare(sq) == 8 * (7 - b) + l;
    DivMod8(FlipSquare(sq), 7 - b, l);
    RankFileOnBoard(FlipSquare(sq));
  }
}
