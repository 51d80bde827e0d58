/**
 * Legal moves, checkmate and stalemate of src/core/board.cpp
 * (generateLegalMoves, isCheckmate, isStalemate), on position values.
 */
module Legality {
  import opened Types
  import opened Utils
  import opened MoveGen
  import opened Positions
  import opened Attacks

  /** The mover's king is not attacked once makeMove has applied m. */
  predicate KeepsKingSafe(p: Position, m: Move)
    requires |p.squares| == 64
  {
    Applicable(m) && !InCheck(ApplyMove(p, m).squares, p.whiteToMove)
  }

  predicate AllApplicable(ms: seq<Move>)
  {
    forall i :: 0 <= i < |ms| ==> Applicable(ms[i])
  }

  /** Every generated move can be handed to makeMove. */
  lemma PseudoLegalApplicable(s: seq<int>, white: bool)
    requires |s| == 64
    ensures AllApplicable(PseudoLegal(s, white))
  {
    PseudoLegalFlags(s, white);
  }

  /** The loop of generateLegalMoves over `ms`: keep, in order, the moves
      after which the mover is not in check. */
  function KeepLegal(p: Position, ms: seq<Move>): (r: seq<Move>)
    requires |p.squares| == 64 && AllApplicable(ms)
    ensures |r| <= |ms|
    ensures AllApplicable(r)
    ensures forall m :: m in r <==> m in ms && KeepsKingSafe(p, m)
  {
    if ms == [] then []
    else
      var rest := KeepLegal(p, ms[..|ms| - 1]);
      var m := ms[|ms| - 1];
      assert ms == ms[..|ms| - 1] + [m];
      if KeepsKingSafe(p, m) then rest + [m] else rest
  }

  /** One more move through the filter of generateLegalMoves. */
  lemma KeepLegalStep(p: Position, ms: seq<Move>, i: int)
    requires |p.squares| == 64 && AllApplicable(ms) && 0 <= i < |ms|
    ensures AllApplicable(ms[..i]) && AllApplicable(ms[..i + 1])
    ensures KeepLegal(p, ms[..i + 1]) ==
      KeepLegal(p, ms[..i]) + (if KeepsKingSafe(p, ms[i]) then [ms[i]] else [])
  {
    assert ms[..i + 1][..i] == ms[..i];
  }

  predicate AscendingFrom(ms: seq<Move>)
  {
    forall i, j :: 0 <= i < j < |ms| ==> ms[i].from <= ms[j].from
  }

  lemma AppendAscending(ms: seq<Move>, m: Move)
    requires AscendingFrom(ms) && forall x :: x in ms ==> x.from <= m.from
    ensures AscendingFrom(ms + [m])
  {
    var r := ms + [m];
    forall i, j | 0 <= i < j < |r|
      ensures r[i].from <= r[j].from
    {
      if j == |ms| {
        assert r[i] in ms;
      } else {
        assert r[i] == ms[i] && r[j] == ms[j];
      }
    }
  }

  /** The filter keeps the relative order of the moves: a list sorted by
      origin square stays sorted. */
  lemma {:induction false} KeepLegalKeepsOrder(p: Position, ms: seq<Move>)
    requires |p.squares| == 64 && AllApplicable(ms) && AscendingFrom(ms)
    ensures AscendingFrom(KeepLegal(p, ms))
  {
    if ms != [] {
      var init := ms[..|ms| - 1];
      var m := ms[|ms| - 1];
      assert AscendingFrom(init);
      KeepLegalKeepsOrder(p, init);
      if KeepsKingSafe(p, m) {
        forall x | x in KeepLegal(p, init)
          ensures x.from <= m.from
        {
          var k :| 0 <= k < |init| && init[k] == x;
          assert ms[k] == x;
        }
        AppendAscending(KeepLegal(p, init), m);
      }
    }
  }

  lemma AppendApplicable(a: seq<Move>, b: seq<Move>)
    requires AllApplicable(a) && AllApplicable(b)
    ensures AllApplicable(a + b)
  {
    var ab := a + b;
    forall i | 0 <= i < |ab|
      ensures Applicable(ab[i])
    {
      if i < |a| {
        assert ab[i] == a[i];
      } else {
        assert ab[i] == b[i - |a|];
      }
    }
  }

  /** The filter works move by move: filtering a concatenation filters each
      part and concatenates the results, and a single move is kept exactly
      when it keeps the king safe. So the result is the subsequence of the
      safe moves, in their original order. */
  lemma {:induction false} KeepLegalAppend(p: Position, a: seq<Move>, b: seq<Move>)
    requires |p.squares| == 64 && AllApplicable(a) && AllApplicable(b)
    ensures AllApplicable(a + b)
    ensures KeepLegal(p, a + b) == KeepLegal(p, a) + KeepLegal(p, b)
    ensures |b| == 1 ==> KeepLegal(p, b) == if KeepsKingSafe(p, b[0]) then b else []
    decreases |b|
  {
    AppendApplicable(a, b);
    var ab := a + b;
    if b == [] {
      assert ab == a;
    } else {
      var init := b[..|b| - 1];
      var m := b[|b| - 1];
      assert AllApplicable(init) by {
        forall i | 0 <= i < |init|
          ensures Applicable(init[i])
        {
          assert init[i] == b[i];
        }
      }
      KeepLegalAppend(p, a, init);
      assert ab[..|ab| - 1] == a + init;
      assert ab[|ab| - 1] == m;
      if |b| == 1 {
        assert init == [];
      }
    }
  }

  /** generateLegalMoves. */
  function LegalMoves(p: Position): (r: seq<Move>)
    requires |p.squares| == 64
    ensures forall m :: m in r <==> m in PseudoLegal(p.squares, p.whiteToMove) && KeepsKingSafe(p, m)
  {
    var pseudo := PseudoLegal(p.squares, p.whiteToMove);
    PseudoLegalFlags(p.squares, p.whiteToMove);
    KeepLegal(p, pseudo)
  }

  /** A move is legal exactly when it has the generated shape and leaves
      the mover's king unattacked; legal moves come out in ascending
      origin order. */
  lemma LegalMovesIff(p: Position, m: Move)
    requires |p.squares| == 64
    ensures m in LegalMoves(p) <==>
      Generated(p.squares, p.whiteToMove, m) && Applicable(m) && KeepsKingSafe(p, m)
    ensures AscendingFrom(LegalMoves(p))
  {
    PseudoLegalIff(p.squares, p.whiteToMove, m);
    PseudoLegalFlags(p.squares, p.whiteToMove);
    PseudoLegalAscending(p.squares, p.whiteToMove);
    KeepLegalKeepsOrder(p, PseudoLegal(p.squares, p.whiteToMove));
  }

  /** isCheckmate: in check and no legal move. */
  predicate Checkmate(p: Position)
    requires |p.squares| == 64
  {
    InCheck(p.squares, p.whiteToMove) && LegalMoves(p) == []
  }

  /** isStalemate: not in check and no legal move. */
  predicate Stalemate(p: Position)
    requires |p.squares| == 64
  {
    !InCheck(p.squares, p.whiteToMove) && LegalMoves(p) == []
  }

  /** Checkmate and stalemate exclude each other, and either one means
      that no move is legal. */
  lemma MateAndStalemateExclusive(p: Position)
    requires |p.squares| == 64
    ensures !(Checkmate(p) && Stalemate(p))
    ensures Checkmate(p) || Stalemate(p) ==> forall m :: m !in LegalMoves(p)
  {
  }

  /** Without a king of the side to move, there is no check, so no mate. */
  lemma NoKingNoMate(p: Position)
    requires |p.squares| == 64
    requires forall i :: 0 <= i < 64 ==> p.squares[i] != KingOf(p.whiteToMove)
    ensures !InCheck(p.squares, p.whiteToMove) && !Checkmate(p)
  {
  }
}
