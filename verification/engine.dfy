/**
 * The integer parts of the engine of src/engine/engine.cpp: the piece
 * values, the level-to-depth mapping of the constructor and setLevel,
 * evaluateMaterial, evaluatePosition below EASY, getMoveOrderScore,
 * orderMoves, the score of a node without legal moves in alphaBeta, and
 * the bookkeeping of getBestMove around its search.
 */
module Engine {
  import opened Types
  import opened Utils
  import opened MoveGen
  import opened Positions
  import opened Attacks
  import opened Legality
  import opened PieceTables
  import opened ChessBoard

  // ---- levels and depths --------------------------------------------------

  /** EngineLevel, in enum order. */
  datatype Level = Random | Beginner | Easy | Medium | Hard | Expert

  /** The enum value of a level, 0 for RANDOM up to 5 for EXPERT. */
  function Ordinal(level: Level): (n: nat)
    ensures n <= 5
  {
    match level
    case Random => 0
    case Beginner => 1
    case Easy => 2
    case Medium => 3
    case Hard => 4
    case Expert => 5
  }

  /** The search depth the switch of the constructor and of setLevel
      assigns to each level. */
  function DepthFor(level: Level): (depth: nat)
    ensures depth <= 6 && depth != 1
    ensures depth == 0 <==> level == Random
  {
    match level
    case Random => 0
    case Beginner => 2
    case Easy => 3
    case Medium => 4
    case Hard => 5
    case Expert => 6
  }

  /** RANDOM searches nothing; every other level searches one ply more than
      its enum value, so a higher level never searches less deeply. */
  lemma DepthForLevel(a: Level, b: Level)
    ensures DepthFor(a) == if a == Random then 0 else Ordinal(a) + 1
    ensures Ordinal(a) <= Ordinal(b) ==> DepthFor(a) <= DepthFor(b)
    ensures DepthFor(a) == DepthFor(b) ==> a == b
  {
  }

  // ---- piece values -------------------------------------------------------

  /** PIECE_VALUES, in centipawns, indexed by the piece enumeration. */
  const PIECE_VALUES: seq<int> := [0, 100, 320, 330, 500, 900, 20000, 100, 320, 330, 500, 900, 20000]

  /** The value of each kind, pawn to king. */
  const KIND_VALUES: seq<int> := [100, 320, 330, 500, 900, 20000]

  const KING_VALUE: int := 20000

  function PieceValue(piece: int): (v: int)
    requires IsPiece(piece)
    ensures 0 <= v <= KING_VALUE
    ensures v == 0 <==> piece == EMPTY
  {
    PIECE_VALUES[piece]
  }

  /** A piece is worth what its kind is worth, whatever its colour. */
  lemma {:induction false} PieceValueByKind(piece: int)
    requires B_PAWN <= piece <= W_KING
    ensures PieceValue(piece) == KIND_VALUES[PieceKind(piece)]
    ensures piece <= B_KING ==> PieceValue(piece) == PieceValue(piece + 6)
  {
    PieceKindPairsColours(if piece <= B_KING then piece else piece - 6, B_PAWN);
  }

  // ---- evaluateMaterial ---------------------------------------------------

  predicate OfSide(piece: int, white: bool)
  {
    if white then IsWhite(piece) else IsBlack(piece)
  }

  /** The total value of the pieces of one side on `s`. */
  function SideMaterial(s: seq<int>, white: bool): (total: int)
    requires ValidPieces(s)
    ensures 0 <= total <= KING_VALUE * |s|
    decreases |s|
  {
    if s == [] then 0
    else
      var last := s[|s| - 1];
      SideMaterial(s[..|s| - 1], white) + (if OfSide(last, white) then PieceValue(last) else 0)
  }

  /** White's material minus Black's. */
  function Material(s: seq<int>): (score: int)
    requires ValidPieces(s)
    ensures -KING_VALUE * |s| <= score <= KING_VALUE * |s|
  {
    SideMaterial(s, true) - SideMaterial(s, false)
  }

  /** The same piece with the other colour. */
  function SwapColour(piece: int): (q: int)
    requires IsPiece(piece)
    ensures IsPiece(q)
    ensures q == EMPTY <==> piece == EMPTY
    ensures IsWhite(q) <==> IsBlack(piece)
    ensures IsBlack(q) <==> IsWhite(piece)
  {
    if piece == EMPTY then EMPTY
    else if piece >= W_PAWN then piece - 6
    else piece + 6
  }

  function SwapColours(s: seq<int>): (r: seq<int>)
    requires ValidPieces(s)
    ensures |r| == |s| && ValidPieces(r)
    ensures forall i :: 0 <= i < |s| ==> r[i] == SwapColour(s[i])
  {
    seq(|s|, i requires 0 <= i < |s| => SwapColour(s[i]))
  }

  /** Swapping the colour of every piece swaps the two sides' material. */
  lemma {:induction false} SideMaterialSwap(s: seq<int>, white: bool)
    requires ValidPieces(s)
    ensures SideMaterial(SwapColours(s), white) == SideMaterial(s, !white)
    decreases |s|
  {
    if s != [] {
      var init := s[..|s| - 1];
      var last := s[|s| - 1];
      var swapped := SwapColours(s);
      assert swapped[..|s| - 1] == SwapColours(init);
      SideMaterialSwap(init, white);
      if last != EMPTY {
        PieceValueByKind(if last <= B_KING then last else last - 6);
      }
    }
  }

  /** The material balance is antisymmetric in the colours. */
  lemma MaterialSwap(s: seq<int>)
    requires ValidPieces(s)
    ensures Material(SwapColours(s)) == -Material(s)
  {
    SideMaterialSwap(s, true);
    SideMaterialSwap(s, false);
  }

  /** The material on a board has an absolute value of at most 64 kings:
      1,280,000, below 2^24, so the float accumulation of the source adds
      and subtracts these integers exactly. */
  lemma MaterialExactInFloat(s: seq<int>)
    requires ValidPieces(s) && |s| == 64
    ensures -0x100_0000 < Material(s) < 0x100_0000
  {
  }

  // ---- getMoveOrderScore --------------------------------------------------

  /** The squares a move ends on that earn the centre bonus: files c..f of
      ranks 3..6. */
  const CENTRE: set<int> := {18, 19, 20, 21, 26, 27, 28, 29, 34, 35, 36, 37, 42, 43, 44, 45}

  /** A capture reads the values of the captured piece and of the piece on
      `from`; the source indexes PIECE_VALUES with both. */
  predicate Scorable(s: seq<int>, m: Move)
  {
    |s| == 64 &&
    (HasFlag(m.flags, CAPTURE) ==> IsPiece(m.captured) && OnBoard(m.from) && IsPiece(s[m.from]))
  }

  predicate NoOrderFlags(m: Move)
  {
    !HasFlag(m.flags, CAPTURE) && !HasFlag(m.flags, PROMOTION) && !HasFlag(m.flags, CASTLING)
  }

  /** getMoveOrderScore on the squares `s` of the board. */
  function MoveOrderScore(s: seq<int>, m: Move): (score: int)
    requires Scorable(s, m)
    ensures NoOrderFlags(m) ==> score == 0 || score == 10
    ensures !HasFlag(m.flags, CAPTURE) ==> 0 <= score <= 1010
  {
    var capture :=
      if HasFlag(m.flags, CAPTURE) then 1000 + PieceValue(m.captured) - PieceValue(s[m.from]) / 10 else 0;
    var promotion := if HasFlag(m.flags, PROMOTION) then 900 else 0;
    var castling := if HasFlag(m.flags, CASTLING) then 100 else 0;
    var toFile := File(m.to);
    var toRank := Rank(m.to);
    var centre := if toFile >= 2 && toFile <= 5 && toRank >= 2 && toRank <= 5 then 10 else 0;
    capture + promotion + castling + centre
  }

  /** A move without ordering flags earns 10 exactly when it ends on one of
      the sixteen centre squares. */
  lemma {:induction false} CentreBonus(s: seq<int>, m: Move)
    requires Scorable(s, m) && NoOrderFlags(m)
    ensures MoveOrderScore(s, m) == 10 <==> m.to in CENTRE
  {
    if OnBoard(m.to) {
      RankFileOnBoard(m.to);
      var r, f := Rank(m.to), File(m.to);
      assert m.to == 8 * r + f;
      if 2 <= r <= 5 && 2 <= f <= 5 {
        assert m.to in CENTRE;
      } else {
        assert m.to !in CENTRE;
      }
    } else {
      assert m.to !in CENTRE;
      if m.to < 0 {
        assert File(m.to) <= 0 || Rank(m.to) <= 0;
      } else {
        assert Rank(m.to) >= 8;
      }
    }
  }

  /** Each flag bit adds its own term: a promotion adds 900 and castling 100
      to whatever the move would score without that bit. */
  lemma FlagTermsAdd(s: seq<int>, m: Move, bit: int)
    requires Scorable(s, m) && (bit == PROMOTION || bit == CASTLING) && !HasFlag(m.flags, bit)
    ensures Scorable(s, m.(flags := m.flags + bit))
    ensures MoveOrderScore(s, m.(flags := m.flags + bit)) ==
      MoveOrderScore(s, m) + (if bit == PROMOTION then 900 else 100)
  {
    SetOrderBit(m.flags, bit);
  }

  /** The capture bit adds its own term too: 1000, plus the value of the
      captured piece, minus a tenth (rounded down) of the capturer's value. */
  lemma CaptureTermAdds(s: seq<int>, m: Move)
    requires Scorable(s, m.(flags := m.flags + CAPTURE)) && !HasFlag(m.flags, CAPTURE)
    ensures Scorable(s, m)
    ensures MoveOrderScore(s, m.(flags := m.flags + CAPTURE)) ==
      MoveOrderScore(s, m) + 1000 + PieceValue(m.captured) - PieceValue(s[m.from]) / 10
  {
    SetCaptureBit(m.flags);
  }

  /** A capture by any piece but a king is tried before every move without
      ordering flags: it scores at least 1000 - 90. */
  lemma CapturesFirst(s: seq<int>, m: Move, q: Move)
    requires Scorable(s, m) && Scorable(s, q)
    requires HasFlag(m.flags, CAPTURE) && s[m.from] != W_KING && s[m.from] != B_KING
    requires NoOrderFlags(q)
    ensures MoveOrderScore(s, m) > MoveOrderScore(s, q)
  {
  }

  /** A king's capture of anything but a king loses 2000 for the capturer
      and so scores below zero, after every move without ordering flags. */
  lemma KingCapturesLast(s: seq<int>, m: Move, q: Move)
    requires Scorable(s, m) && Scorable(s, q)
    requires HasFlag(m.flags, CAPTURE) && !HasFlag(m.flags, PROMOTION) && !HasFlag(m.flags, CASTLING)
    requires s[m.from] == W_KING || s[m.from] == B_KING
    requires m.captured != W_KING && m.captured != B_KING
    requires NoOrderFlags(q)
    ensures MoveOrderScore(s, m) < 0 <= MoveOrderScore(s, q)
  {
  }

  // ---- orderMoves ---------------------------------------------------------

  predicate AllScorable(s: seq<int>, moves: seq<Move>)
  {
    forall m :: m in moves ==> Scorable(s, m)
  }

  /** Highest score first. */
  predicate ByScore(s: seq<int>, moves: seq<Move>)
    requires AllScorable(s, moves)
  {
    forall i, j :: 0 <= i < j < |moves| ==> MoveOrderScore(s, moves[i]) >= MoveOrderScore(s, moves[j])
  }

  /** A move paired with its score, as orderMoves stores it. */
  type Scored = (Move, int)

  /** Every pair holds its move's getMoveOrderScore. */
  predicate Cached(s: seq<int>, pairs: seq<Scored>)
  {
    forall p :: p in pairs ==> Scorable(s, p.0) && p.1 == MoveOrderScore(s, p.0)
  }

  /** The comparator of the sort: higher scores first. */
  predicate Descending(pairs: seq<Scored>)
  {
    forall i, j :: 0 <= i < j < |pairs| ==> pairs[i].1 >= pairs[j].1
  }

  function Moves(pairs: seq<Scored>): (ms: seq<Move>)
    ensures |ms| == |pairs| && forall i :: 0 <= i < |pairs| ==> ms[i] == pairs[i].0
  {
    seq(|pairs|, i requires 0 <= i < |pairs| => pairs[i].0)
  }

  /** Inserts a scored move ahead of the first pair scoring no more. */
  function InsertByScore(pairs: seq<Scored>, p: Scored): (r: seq<Scored>)
    ensures |r| == |pairs| + 1
    ensures multiset(Moves(r)) == multiset(Moves(pairs)) + multiset{p.0}
    ensures forall q :: q in r <==> q in pairs || q == p
  {
    if pairs == [] || p.1 >= pairs[0].1 then
      assert Moves([p] + pairs) == [p.0] + Moves(pairs);
      [p] + pairs
    else
      var rest := InsertByScore(pairs[1..], p);
      assert pairs == [pairs[0]] + pairs[1..];
      assert Moves(pairs) == [pairs[0].0] + Moves(pairs[1..]);
      assert Moves([pairs[0]] + rest) == [pairs[0].0] + Moves(rest);
      [pairs[0]] + rest
  }

  /** Inserting into a descending list keeps it descending. */
  lemma {:induction false} InsertKeepsOrder(pairs: seq<Scored>, p: Scored)
    requires Descending(pairs)
    ensures Descending(InsertByScore(pairs, p))
  {
    var r := InsertByScore(pairs, p);
    if pairs != [] && p.1 < pairs[0].1 {
      var tail := pairs[1..];
      InsertKeepsOrder(tail, p);
      var rest := InsertByScore(tail, p);
      assert r == [pairs[0]] + rest;
      forall i, j | 0 <= i < j < |r|
        ensures r[i].1 >= r[j].1
      {
        assert r[j] == rest[j - 1] && r[j] in rest;
        if i > 0 {
          assert r[i] == rest[i - 1];
        } else if r[j] != p {
          var k :| 0 <= k < |tail| && tail[k] == r[j];
          assert pairs[k + 1] == r[j];
        }
      }
    }
  }

  /** The std::sort call of orderMoves, as insertion: a reordering of the
      pairs, highest score first. */
  method SortByScore(pairs: seq<Scored>) returns (sorted: seq<Scored>)
    ensures multiset(Moves(sorted)) == multiset(Moves(pairs))
    ensures forall p :: p in sorted ==> p in pairs
    ensures Descending(sorted)
  {
    sorted := [];
    for k := 0 to |pairs|
      invariant multiset(Moves(sorted)) == multiset(Moves(pairs[..k]))
      invariant forall p :: p in sorted ==> p in pairs[..k]
      invariant Descending(sorted)
    {
      assert pairs[..k + 1] == pairs[..k] + [pairs[k]];
      assert Moves(pairs[..k + 1]) == Moves(pairs[..k]) + [pairs[k].0];
      InsertKeepsOrder(sorted, pairs[k]);
      sorted := InsertByScore(sorted, pairs[k]);
    }
    assert pairs[..|pairs|] == pairs;
  }

  /** A descending list of cached pairs lists its moves by score. */
  lemma CachedOrder(s: seq<int>, pairs: seq<Scored>)
    requires Cached(s, pairs) && Descending(pairs)
    ensures AllScorable(s, Moves(pairs)) && ByScore(s, Moves(pairs))
  {
    var ms := Moves(pairs);
    forall m | m in ms
      ensures Scorable(s, m)
    {
      var k :| 0 <= k < |ms| && ms[k] == m;
      assert pairs[k] in pairs;
    }
    forall i, j | 0 <= i < j < |ms|
      ensures MoveOrderScore(s, ms[i]) >= MoveOrderScore(s, ms[j])
    {
      assert pairs[i] in pairs && pairs[j] in pairs;
    }
  }

  // ---- the score of a node without legal moves ----------------------------

  /** The value alphaBeta returns at a node without legal moves: a draw
      when the side to move is not in check; otherwise a mate, worth
      -20000 to the maximising side and +20000 to the other, moved
      towards zero by the plies played since the root. */
  function TerminalScore(inCheck: bool, maximising: bool, maxDepth: int, depth: int): (score: int)
    ensures !inCheck ==> score == 0
  {
    if inCheck then
      if maximising then -20000 + (maxDepth - depth) else 20000 - (maxDepth - depth)
    else 0
  }

  /** The two sides see the same node with opposite signs, a mate scores
      beyond every material-free draw, and a mate found nearer the root
      (more depth left) is worth more to the side that gives it. */
  lemma TerminalScoreOrder(inCheck: bool, maxDepth: int, depth: int, deeper: int)
    requires 0 <= depth < deeper <= maxDepth < 20000
    ensures TerminalScore(inCheck, true, maxDepth, depth) == -TerminalScore(inCheck, false, maxDepth, depth)
    ensures inCheck ==> TerminalScore(inCheck, true, maxDepth, depth) < 0 < TerminalScore(inCheck, false, maxDepth, depth)
    ensures inCheck ==> TerminalScore(inCheck, false, maxDepth, deeper) > TerminalScore(inCheck, false, maxDepth, depth)
  {
  }

  // ---- the engine ---------------------------------------------------------

  class ChessEngine {
    var level: Level
    var maxDepth: int
    var timeLimit: int
    var nodesSearched: int
    var lastDepth: int

    /** ChessEngine(level): 5000 ms, no nodes, depth from the level. */
    constructor(level: Level)
      ensures this.level == level && maxDepth == DepthFor(level)
      ensures timeLimit == 5000 && nodesSearched == 0 && lastDepth == 0
    {
      this.level := level;
      maxDepth := DepthFor(level);
      timeLimit := 5000;
      nodesSearched := 0;
      lastDepth := 0;
    }

    /** setLevel: the same depth as the constructor gives; the rest of the
        engine is untouched. */
    method SetLevel(level: Level)
      modifies this
      ensures this.level == level && maxDepth == DepthFor(level)
      ensures timeLimit == old(timeLimit) && nodesSearched == old(nodesSearched) && lastDepth == old(lastDepth)
    {
      this.level := level;
      maxDepth := DepthFor(level);
    }

    /** evaluateMaterial: White's material minus Black's. */
    method EvaluateMaterial(board: Board) returns (score: int)
      requires board.Valid() && ValidPieces(board.squares[..])
      ensures score == Material(board.squares[..])
    {
      ghost var s := board.squares[..];
      score := 0;
      for sq := 0 to 64
        invariant score == SideMaterial(s[..sq], true) - SideMaterial(s[..sq], false)
        invariant -0x100_0000 < score < 0x100_0000
      {
        var piece := board.squares[sq];
        assert s[..sq + 1][..sq] == s[..sq];
        if piece == EMPTY {
          continue;
        }
        if piece >= W_PAWN {
          score := score + PIECE_VALUES[piece];
        } else {
          score := score - PIECE_VALUES[piece];
        }
      }
      assert s[..64] == s;
    }

    /** evaluatePosition below EASY: the material from the point of view of
        the side to move. */
    method EvaluatePosition(board: Board) returns (score: int)
      requires board.Valid() && ValidPieces(board.squares[..])
      requires Ordinal(level) < Ordinal(Easy)
      ensures score == if board.whiteToMove then Material(board.squares[..]) else -Material(board.squares[..])
    {
      score := EvaluateMaterial(board);
      score := if board.whiteToMove then score else -score;
    }

    /** orderMoves: the moves, highest getMoveOrderScore first. */
    method OrderMoves(board: Board, moves: seq<Move>) returns (ordered: seq<Move>)
      requires board.Valid() && AllScorable(board.squares[..], moves)
      ensures multiset(ordered) == multiset(moves)
      ensures AllScorable(board.squares[..], ordered) && ByScore(board.squares[..], ordered)
    {
      ghost var s := board.squares[..];
      var scoredMoves: seq<Scored> := [];
      for k := 0 to |moves|
        invariant Moves(scoredMoves) == moves[..k] && Cached(s, scoredMoves)
      {
        var score := MoveOrderScore(board.squares[..], moves[k]);
        assert Moves(scoredMoves + [(moves[k], score)]) == Moves(scoredMoves) + [moves[k]];
        scoredMoves := scoredMoves + [(moves[k], score)];
        assert moves[..k + 1] == moves[..k] + [moves[k]];
      }
      assert moves[..|moves|] == moves;

      // sort by highest score
      var sorted := SortByScore(scoredMoves);
      assert Cached(s, sorted);

      ordered := [];
      for k := 0 to |sorted|
        invariant ordered == Moves(sorted[..k])
      {
        assert Moves(sorted[..k + 1]) == Moves(sorted[..k]) + [sorted[k].0];
        ordered := ordered + [sorted[k].0];
      }
      assert sorted[..|sorted|] == sorted;
      CachedOrder(s, sorted);
    }

    /** The branch of alphaBeta for a node without legal moves. */
    method NoMovesScore(board: Board, depth: int, maximising: bool) returns (score: int)
      requires board.Valid()
      ensures score == TerminalScore(InCheck(board.squares[..], board.whiteToMove), maximising, maxDepth, depth)
      ensures LegalMoves(board.View()) == [] && 0 <= maxDepth - depth < 20000 ==>
        (score != 0 <==> Checkmate(board.View())) && (score == 0 <==> Stalemate(board.View()))
    {
      var check := board.IsCheck(board.whiteToMove);
      if check {
        score := if maximising then -20000 + (maxDepth - depth) else 20000 - (maxDepth - depth);
      } else {
        score := 0;
      }
    }

    /** getBestMove(board, depth, timeLimit). The search that picks among
        the legal moves (uniformly at random at RANDOM, by a timed
        alpha-beta search otherwise) is not modelled: its pick enters as
        `choice`, and the number of alphaBeta calls it makes, which depends
        on the clock, enters as `searched`. The node count is reset to zero
        and stays there when there is no legal move or the level is RANDOM. */
    method GetBestMove(board: Board, depth: int, limit: int, choice: nat, searched: nat) returns (best: Move)
      requires board.Valid()
      modifies this
      ensures level == old(level) && maxDepth == old(maxDepth)
      ensures timeLimit == limit && lastDepth == depth
      ensures nodesSearched == if level == Random || LegalMoves(board.View()) == [] then 0 else searched
      ensures LegalMoves(board.View()) == [] ==> best == NO_MOVE
      ensures LegalMoves(board.View()) != [] ==> best in LegalMoves(board.View())
    {
      timeLimit := limit;
      nodesSearched := 0;
      lastDepth := depth;
      var legalMoves := board.GenerateLegalMoves();
      if |legalMoves| == 0 {
        return NO_MOVE;
      }
      best := legalMoves[choice % |legalMoves|];
      if level != Random {
        nodesSearched := searched;
      }
    }

    /** getBestMove(board, timelimit): searches to the level's depth with
        the engine's own time limit; the `timelimit` argument is not used. */
    method GetBestMoveAtLevel(board: Board, timelimit: int, choice: nat, searched: nat) returns (best: Move)
      requires board.Valid()
      modifies this
      ensures level == old(level) && maxDepth == old(maxDepth) && timeLimit == old(timeLimit)
      ensures lastDepth == old(maxDepth)
      ensures nodesSearched == if level == Random || LegalMoves(board.View()) == [] then 0 else searched
      ensures LegalMoves(board.View()) == [] ==> best == NO_MOVE
      ensures LegalMoves(board.View()) != [] ==> best in LegalMoves(board.View())
    {
      best := GetBestMove(board, maxDepth, timeLimit, choice, searched);
    }
  }
}
