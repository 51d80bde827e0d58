/**
 * The check oracle of src/core/board.cpp: findking, isSquareAttacked and
 * isCheck, as the code is written, on a 64-entry board. The pawn, knight
 * and king tests of isSquareAttacked can never succeed, so the oracle only
 * sees rook, bishop and queen attacks; the lemmas below establish that and
 * characterise the rays geometrically.
 */
module Attacks {
  import opened Types
  import opened Utils
  import opened MoveGen

  function KingOf(white: bool): int
  {
    if white then W_KING else B_KING
  }

  /** The linear search of findking, from index i on. */
  function KingFrom(s: seq<int>, king: int, i: nat): (r: int)
    requires i <= |s|
    ensures r == -1 || (i <= r < |s| && s[r] == king)
    ensures r == -1 <==> forall j :: i <= j < |s| ==> s[j] != king
    ensures r != -1 ==> forall j :: i <= j < r ==> s[j] != king
    decreases |s| - i
  {
    if i == |s| then -1
    else if s[i] == king then i
    else KingFrom(s, king, i + 1)
  }

  /** findking: the lowest square holding the king of that colour, or -1. */
  function KingSquare(s: seq<int>, white: bool): (r: int)
    requires |s| == 64
    ensures r == -1 || (OnBoard(r) && s[r] == KingOf(white))
    ensures r == -1 <==> forall j :: 0 <= j < 64 ==> s[j] != KingOf(white)
    ensures r != -1 ==> forall j :: 0 <= j < r ==> s[j] != KingOf(white)
  {
    KingFrom(s, KingOf(white), 0)
  }

  /** The attacker-colour test (isWhitePiece / isBlackPiece). */
  predicate IsAttacker(p: int, byWhite: bool)
  {
    if byWhite then IsWhite(p) else IsBlack(p)
  }

  // ---- 1) pawns -----------------------------------------------------------

  /** The pawn tests. The file comparisons require the attacking pawn to sit
      on the far side of the square it would attack, so they never hold. */
  predicate PawnAttack(s: seq<int>, square: int, byWhite: bool)
    requires |s| == 64
  {
    if byWhite then
      (OnBoard(square - 7) && s[square - 7] == W_PAWN && File(square - 7) == File(square) - 1) ||
      (OnBoard(square - 9) && s[square - 9] == W_PAWN && File(square - 9) == File(square) + 1)
    else
      (OnBoard(square + 7) && s[square + 7] == B_PAWN && File(square + 7) == File(square) + 1) ||
      (OnBoard(square + 9) && s[square + 9] == B_PAWN && File(square + 9) == File(square) - 1)
  }

  // ---- 2) knights ---------------------------------------------------------

  const KNIGHT_OFFSETS: seq<int> := [6, -6, 10, -10, 15, -15, 17, -17]

  predicate KnightShape(square: int, t: int)
  {
    var fd := Abs(File(t) - File(square));
    var rd := Abs(Rank(t) - Rank(square));
    (fd == 1 && rd == 2) || (fd == 2 && rd == 1)
  }

  /** One knight test: its last condition asks the target to hold a white
      knight and a black knight at once. */
  predicate KnightHit(s: seq<int>, square: int, d: int, byWhite: bool)
    requires |s| == 64
  {
    var t := square + d;
    OnBoard(t) && KnightShape(square, t) && byWhite && s[t] == W_KNIGHT && s[t] == B_KNIGHT
  }

  predicate KnightAttack(s: seq<int>, square: int, byWhite: bool)
    requires |s| == 64
  {
    exists k :: 0 <= k < 8 && KnightHit(s, square, KNIGHT_OFFSETS[k], byWhite)
  }

  // ---- 3) and 4) sliding rays ---------------------------------------------

  const ROOK_DIRS: seq<int> := [1, -1, 8, -8]
  const DIAGONAL_DIRS: seq<int> := [9, -9, 7, -7]

  function Dirs(diagonal: bool): seq<int>
  {
    if diagonal then DIAGONAL_DIRS else ROOK_DIRS
  }

  predicate IsRayDir(dir: int, diagonal: bool)
  {
    if diagonal then dir == 9 || dir == -9 || dir == 7 || dir == -7
    else dir == 1 || dir == -1 || dir == 8 || dir == -8
  }

  /** The pieces that attack along a ray of that kind. */
  predicate Slider(p: int, byWhite: bool, diagonal: bool)
  {
    if diagonal then
      (if byWhite then p == W_BISHOP || p == W_QUEEN else p == B_BISHOP || p == B_QUEEN)
    else
      (if byWhite then p == W_ROOK || p == W_QUEEN else p == B_ROOK || p == B_QUEEN)
  }

  /** The wrap guard of a ray step from prev to t: a horizontal step must
      stay on its rank, a diagonal step must change file and rank by one. */
  predicate StepOk(prev: int, t: int, dir: int, diagonal: bool)
  {
    if diagonal then Abs(File(t) - File(prev)) == 1 && Abs(Rank(t) - Rank(prev)) == 1
    else !((dir == 1 || dir == -1) && Rank(t) != Rank(prev))
  }

  function RayMeasure(t: int, dir: int): nat
  {
    if !OnBoard(t) then 0 else if dir > 0 then 64 - t else t + 1
  }

  /** The inner while loop of one ray: walk over empty squares while the
      step guard holds; the ray attacks when the first occupied square holds
      an attacker's slider. */
  predicate Ray(s: seq<int>, byWhite: bool, prev: int, t: int, dir: int, diagonal: bool)
    requires |s| == 64 && dir != 0
    decreases RayMeasure(t, dir)
  {
    if !OnBoard(t) || !StepOk(prev, t, dir, diagonal) then false
    else if s[t] == EMPTY then Ray(s, byWhite, t, t + dir, dir, diagonal)
    else IsAttacker(s[t], byWhite) && Slider(s[t], byWhite, diagonal)
  }

  predicate SlidingAttack(s: seq<int>, square: int, byWhite: bool, diagonal: bool)
    requires |s| == 64
  {
    exists k :: 0 <= k < 4 && Ray(s, byWhite, square, square + Dirs(diagonal)[k], Dirs(diagonal)[k], diagonal)
  }

  // ---- 5) kings -----------------------------------------------------------

  const KING_OFFSETS: seq<int> := [1, -1, 8, -8, 7, -7, 9, -9]

  /** One king test: like the knight test it asks for two pieces at once. */
  predicate KingHit(s: seq<int>, square: int, d: int, byWhite: bool)
    requires |s| == 64
  {
    var t := square + d;
    OnBoard(t) && Abs(File(t) - File(square)) <= 1 && Abs(Rank(t) - Rank(square)) <= 1 &&
    byWhite && s[t] == W_KING && s[t] == B_KING
  }

  predicate KingAttack(s: seq<int>, square: int, byWhite: bool)
    requires |s| == 64
  {
    exists k :: 0 <= k < 8 && KingHit(s, square, KING_OFFSETS[k], byWhite)
  }

  /** isSquareAttacked. */
  predicate Attacked(s: seq<int>, square: int, byWhite: bool)
    requires |s| == 64
  {
    PawnAttack(s, square, byWhite) || KnightAttack(s, square, byWhite) ||
    SlidingAttack(s, square, byWhite, false) || SlidingAttack(s, square, byWhite, true) ||
    KingAttack(s, square, byWhite)
  }

  /** isCheck: the side's king is attacked by the other side; with no king
      on the board the answer is false. */
  predicate InCheck(s: seq<int>, white: bool)
    requires |s| == 64
    ensures InCheck(s, white) ==> exists j :: 0 <= j < 64 && s[j] == KingOf(white)
    ensures InCheck(s, white) ==> Attacked(s, KingSquare(s, white), !white)
  {
    var k := KingSquare(s, white);
    k != -1 && Attacked(s, k, !white)
  }

  // ---- what the oracle can see --------------------------------------------

  /** File of a square lying strictly between -8 and 0, under truncation. */
  lemma SmallNegativeFile(square: int)
    requires -8 < square < 0
    ensures File(square) == square && Rank(square) == 0
  {
  }

  lemma PawnTestsNeverFire(s: seq<int>, square: int, byWhite: bool)
    requires |s| == 64
    ensures !PawnAttack(s, square, byWhite)
  {
    if -8 < square < 0 {
      SmallNegativeFile(square);
    } else if square == -8 {
      assert File(square) == 0;
    } else if square == -9 {
      assert File(square) == -1;
    }
  }

  lemma KnightAndKingTestsNeverFire(s: seq<int>, square: int, byWhite: bool)
    requires |s| == 64
    ensures !KnightAttack(s, square, byWhite) && !KingAttack(s, square, byWhite)
  {
  }

  /** isSquareAttacked reports exactly the rook-line and diagonal attacks. */
  lemma OnlySlidingAttacks(s: seq<int>, square: int, byWhite: bool)
    requires |s| == 64
    ensures Attacked(s, square, byWhite) <==>
      SlidingAttack(s, square, byWhite, false) || SlidingAttack(s, square, byWhite, true)
  {
    PawnTestsNeverFire(s, square, byWhite);
    KnightAndKingTestsNeverFire(s, square, byWhite);
  }

  // ---- rays as lines of squares -------------------------------------------

  /** The squares a ray visits from t on, as long as the step guard holds. */
  function Line(prev: int, t: int, dir: int, diagonal: bool): (line: seq<int>)
    requires dir != 0
    ensures AllOnBoard(line)
    decreases RayMeasure(t, dir)
  {
    if !OnBoard(t) || !StepOk(prev, t, dir, diagonal) then []
    else [t] + Line(t, t + dir, dir, diagonal)
  }

  predicate AllOnBoard(line: seq<int>)
  {
    forall i :: 0 <= i < |line| ==> OnBoard(line[i])
  }

  /** The first occupied square of the line holds an attacker's slider. */
  predicate FirstOccupiedIsSlider(s: seq<int>, line: seq<int>, byWhite: bool, diagonal: bool)
    requires |s| == 64 && AllOnBoard(line)
  {
    exists k :: 0 <= k < |line| && Slider(s[line[k]], byWhite, diagonal) && EmptyBefore(s, line, k)
  }

  predicate EmptyBefore(s: seq<int>, line: seq<int>, k: int)
    requires |s| == 64 && AllOnBoard(line) && k <= |line|
  {
    forall j :: 0 <= j < k ==> s[line[j]] == EMPTY
  }

  lemma SliderIsAttacker(p: int, byWhite: bool, diagonal: bool)
    requires Slider(p, byWhite, diagonal)
    ensures p != EMPTY && IsAttacker(p, byWhite)
  {
  }

  /** Prepending a square to a line: an empty square passes the question on,
      an occupied one answers it. */
  lemma FirstOccupiedCons(s: seq<int>, t: int, rest: seq<int>, byWhite: bool, diagonal: bool)
    requires |s| == 64 && OnBoard(t) && AllOnBoard(rest)
    ensures AllOnBoard([t] + rest)
    ensures FirstOccupiedIsSlider(s, [t] + rest, byWhite, diagonal) <==>
      if s[t] == EMPTY then FirstOccupiedIsSlider(s, rest, byWhite, diagonal)
      else Slider(s[t], byWhite, diagonal)
  {
    var line := [t] + rest;
    assert line[0] == t;
    assert forall j :: 1 <= j < |line| ==> line[j] == rest[j - 1];
    if FirstOccupiedIsSlider(s, line, byWhite, diagonal) {
      var k :| 0 <= k < |line| && Slider(s[line[k]], byWhite, diagonal) && EmptyBefore(s, line, k);
      SliderIsAttacker(s[line[k]], byWhite, diagonal);
      if s[t] == EMPTY {
        assert k > 0;
        forall j | 0 <= j < k - 1
          ensures s[rest[j]] == EMPTY
        {
          assert rest[j] == line[j + 1];
        }
        assert Slider(s[rest[k - 1]], byWhite, diagonal) && EmptyBefore(s, rest, k - 1);
      } else {
        assert k == 0;
      }
    }
    if s[t] == EMPTY && FirstOccupiedIsSlider(s, rest, byWhite, diagonal) {
      var k :| 0 <= k < |rest| && Slider(s[rest[k]], byWhite, diagonal) && EmptyBefore(s, rest, k);
      assert Slider(s[line[k + 1]], byWhite, diagonal) && EmptyBefore(s, line, k + 1);
    }
    if s[t] != EMPTY && Slider(s[t], byWhite, diagonal) {
      assert EmptyBefore(s, line, 0);
    }
  }

  /** A ray attacks exactly when the first occupied square of its line
      holds an attacker's slider. */
  lemma {:induction false} RayIffFirstOccupied(s: seq<int>, byWhite: bool, prev: int, t: int, dir: int, diagonal: bool)
    requires |s| == 64 && dir != 0
    ensures Ray(s, byWhite, prev, t, dir, diagonal) <==>
      FirstOccupiedIsSlider(s, Line(prev, t, dir, diagonal), byWhite, diagonal)
    decreases RayMeasure(t, dir)
  {
    if OnBoard(t) && StepOk(prev, t, dir, diagonal) {
      var rest := Line(t, t + dir, dir, diagonal);
      RayIffFirstOccupied(s, byWhite, t, t + dir, dir, diagonal);
      FirstOccupiedCons(s, t, rest, byWhite, diagonal);
      if s[t] != EMPTY && Slider(s[t], byWhite, diagonal) {
        SliderIsAttacker(s[t], byWhite, diagonal);
      }
    }
  }

  /** Some line of that kind from the square has an attacker's slider as
      its first occupied square. */
  predicate LineAttack(s: seq<int>, square: int, byWhite: bool, diagonal: bool)
    requires |s| == 64
  {
    exists k :: 0 <= k < 4 &&
      FirstOccupiedIsSlider(s, Line(square, square + Dirs(diagonal)[k], Dirs(diagonal)[k], diagonal), byWhite, diagonal)
  }

  /** The k-th ray of a kind and the k-th line of that kind agree. */
  lemma RayIffLine(s: seq<int>, square: int, byWhite: bool, diagonal: bool, k: int)
    requires |s| == 64 && 0 <= k < 4
    ensures Ray(s, byWhite, square, square + Dirs(diagonal)[k], Dirs(diagonal)[k], diagonal) <==>
      FirstOccupiedIsSlider(s, Line(square, square + Dirs(diagonal)[k], Dirs(diagonal)[k], diagonal), byWhite, diagonal)
  {
    RayIffFirstOccupied(s, byWhite, square, square + Dirs(diagonal)[k], Dirs(diagonal)[k], diagonal);
  }

  lemma SlidingIffLine(s: seq<int>, square: int, byWhite: bool, diagonal: bool)
    requires |s| == 64
    ensures SlidingAttack(s, square, byWhite, diagonal) <==> LineAttack(s, square, byWhite, diagonal)
  {
    forall k | 0 <= k < 4 {
      RayIffLine(s, square, byWhite, diagonal, k);
    }
  }

  /** isSquareAttacked is true exactly when, along one of the four rook
      lines or one of the four diagonals from the square, the first occupied
      square holds a rook or queen (lines) or a bishop or queen (diagonals)
      of the attacking side. */
  lemma AttackedIffFirstOccupied(s: seq<int>, square: int, byWhite: bool)
    requires |s| == 64
    ensures Attacked(s, square, byWhite) <==> LineAttack(s, square, byWhite, false) || LineAttack(s, square, byWhite, true)
  {
    OnlySlidingAttacks(s, square, byWhite);
    SlidingIffLine(s, square, byWhite, false);
    SlidingIffLine(s, square, byWhite, true);
  }

  // ---- ray geometry -------------------------------------------------------

  /** File and rank change of one step in direction dir. */
  function FileStep(dir: int): int
  {
    if dir == 1 || dir == 9 || dir == -7 then 1
    else if dir == -1 || dir == -9 || dir == 7 then -1
    else 0
  }

  function RankStep(dir: int): int
  {
    if dir == 8 || dir == 9 || dir == 7 then 1
    else if dir == -8 || dir == -9 || dir == -7 then -1
    else 0
  }

  predicate InRange(file: int, rank: int)
  {
    0 <= file < 8 && 0 <= rank < 8
  }

  /** A ray takes one more step exactly when the next file and rank along
      the direction are on the board, and the step moves by that amount. */
  lemma StepGeometry(prev: int, dir: int, diagonal: bool)
    requires OnBoard(prev) && IsRayDir(dir, diagonal)
    ensures OnBoard(prev + dir) && StepOk(prev, prev + dir, dir, diagonal) <==>
      InRange(File(prev) + FileStep(dir), Rank(prev) + RankStep(dir))
    ensures OnBoard(prev + dir) && StepOk(prev, prev + dir, dir, diagonal) ==>
      File(prev + dir) == File(prev) + FileStep(dir) && Rank(prev + dir) == Rank(prev) + RankStep(dir)
  {
    RankFileOnBoard(prev);
    if OnBoard(prev + dir) {
      RankFileOnBoard(prev + dir);
    }
  }

  /** The number of steps from (file, rank) to the edge of the board. */
  function StepsToEdge(file: int, rank: int, df: int, dr: int): nat
    requires InRange(file, rank) && (df != 0 || dr != 0)
    decreases if df > 0 then 8 - file else if df < 0 then file + 1 else if dr > 0 then 8 - rank else rank + 1
  {
    if InRange(file + df, rank + dr) then 1 + StepsToEdge(file + df, rank + dr, df, dr) else 0
  }

  /** The ray from `prev` runs until the edge of the board: its length is
      the number of steps from the square to the edge in that direction. */
  lemma {:induction false} LineLength(prev: int, dir: int, diagonal: bool)
    requires OnBoard(prev) && IsRayDir(dir, diagonal)
    ensures |Line(prev, prev + dir, dir, diagonal)| == StepsToEdge(File(prev), Rank(prev), FileStep(dir), RankStep(dir))
    decreases RayMeasure(prev, dir)
  {
    StepGeometry(prev, dir, diagonal);
    RankFileOnBoard(prev);
    var next := prev + dir;
    if OnBoard(next) && StepOk(prev, next, dir, diagonal) {
      LineLength(next, dir, diagonal);
      assert Line(prev, next, dir, diagonal) == [next] + Line(next, next + dir, dir, diagonal);
    } else {
      assert Line(prev, next, dir, diagonal) == [];
    }
  }

  /** Coordinate b lies n steps of size d (one of -1, 0, 1) from a. */
  predicate Stepped(a: int, b: int, n: int, d: int)
  {
    if d == 1 then b == a + n else if d == -1 then b == a - n else b == a
  }

  /** Every square of the line lies i+1 steps from `prev` in file and rank. */
  predicate OnGeometricLine(line: seq<int>, prev: int, dir: int)
  {
    forall i :: 0 <= i < |line| ==>
      Stepped(File(prev), File(line[i]), i + 1, FileStep(dir)) &&
      Stepped(Rank(prev), Rank(line[i]), i + 1, RankStep(dir))
  }

  /** The i-th square of the ray from `prev` lies i+1 steps away in file and
      in rank. In particular horizontal rays keep their rank and each
      diagonal step changes file and rank by one. */
  lemma {:induction false} LineCoordinates(prev: int, dir: int, diagonal: bool)
    requires OnBoard(prev) && IsRayDir(dir, diagonal)
    ensures OnGeometricLine(Line(prev, prev + dir, dir, diagonal), prev, dir)
    decreases RayMeasure(prev, dir)
  {
    StepGeometry(prev, dir, diagonal);
    var t := prev + dir;
    if OnBoard(t) && StepOk(prev, t, dir, diagonal) {
      LineCoordinates(t, dir, diagonal);
      GeometricLineCons(t, Line(t, t + dir, dir, diagonal), prev, dir);
      assert Line(prev, t, dir, diagonal) == [t] + Line(t, t + dir, dir, diagonal);
    } else {
      assert Line(prev, t, dir, diagonal) == [];
    }
  }

  lemma GeometricLineCons(t: int, rest: seq<int>, prev: int, dir: int)
    requires Stepped(File(prev), File(t), 1, FileStep(dir)) && Stepped(Rank(prev), Rank(t), 1, RankStep(dir))
    requires OnGeometricLine(rest, t, dir)
    ensures OnGeometricLine([t] + rest, prev, dir)
  {
    var line := [t] + rest;
    forall i | 0 < i < |line|
      ensures Stepped(File(prev), File(line[i]), i + 1, FileStep(dir))
      ensures Stepped(Rank(prev), Rank(line[i]), i + 1, RankStep(dir))
    {
      assert line[i] == rest[i - 1];
    }
  }

  /** Horizontal rays never leave the square's rank. */
  lemma HorizontalRayKeepsRank(prev: int, dir: int)
    requires OnBoard(prev) && (dir == 1 || dir == -1)
    ensures forall t :: t in Line(prev, prev + dir, dir, false) ==> Rank(t) == Rank(prev)
  {
    LineCoordinates(prev, dir, false);
  }
}
