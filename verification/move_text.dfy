/**
 * Move::toString of src/core/move.cpp: the coordinate text of a move,
 * "e2e4", with a 'q' appended when the PROMOTION bit is set.
 */
module MoveText {
  import opened Types
  import opened Utils

  /** Both squares have rank characters inside ASCII. */
  predicate Printable(m: Move)
  {
    RankCharInAscii(m.from) && RankCharInAscii(m.to)
  }

  function ToString(m: Move): (r: string)
    requires Printable(m)
    ensures |r| == if HasFlag(m.flags, PROMOTION) then 5 else 4
    ensures r[0] == FileChar(m.from) && r[1] == RankChar(m.from)
    ensures r[2] == FileChar(m.to) && r[3] == RankChar(m.to)
    ensures |r| == 5 ==> r[4] == 'q'
  {
    var squares := [FileChar(m.from), RankChar(m.from), FileChar(m.to), RankChar(m.to)];
    if HasFlag(m.flags, PROMOTION) then squares + ['q'] else squares
  }

  /** Only the squares and the PROMOTION bit reach the text: the captured
      piece, the promotion piece and every other flag bit are ignored. */
  lemma ToStringIgnoresOtherFields(m: Move, n: Move)
    requires Printable(m) && m.from == n.from && m.to == n.to
    requires HasFlag(m.flags, PROMOTION) == HasFlag(n.flags, PROMOTION)
    ensures ToString(m) == ToString(n)
  {
  }

  /** For on-board squares the text is made of file letters 'a'..'h' and
      rank digits '1'..'8', and distinct squares give distinct texts. */
  lemma ToStringOnBoard(m: Move, n: Move)
    requires OnBoard(m.from) && OnBoard(m.to) && OnBoard(n.from) && OnBoard(n.to)
    ensures 'a' <= ToString(m)[0] <= 'h' && '1' <= ToString(m)[1] <= '8'
    ensures 'a' <= ToString(m)[2] <= 'h' && '1' <= ToString(m)[3] <= '8'
    ensures ToString(m) == ToString(n) ==> m.from == n.from && m.to == n.to
  {
    if ToString(m) == ToString(n) {
      assert ToString(m)[0] == ToString(n)[0] && ToString(m)[1] == ToString(n)[1];
      assert ToString(m)[2] == ToString(n)[2] && ToString(m)[3] == ToString(n)[3];
      SquareCharsDetermineSquare(m.from, n.from);
      SquareCharsDetermineSquare(m.to, n.to);
    }
  }
}
