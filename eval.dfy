/** The piece-square evaluator of src/eval.rs: two 6 x 64 tables of
    centipawn values, one per colour, each entry a material value plus a
    positional bonus, and a static score that sums the entries of the pieces
    on the board from the point of view of the side to move. */
module Eval {
  import opened Chess

  /** Bounds of the source's `i32` score. */
  const I32_MIN: int := -0x8000_0000
  const I32_MAX: int := 0x7fff_ffff

  /** A piece on the board as the rules library lists it: a square index
      (a1 = 0, b1 = 1, ..., h8 = 63), a colour and a role (pawn = 1, knight = 2,
      bishop = 3, rook = 4, queen = 5, king = 6). */
  datatype Piece = Piece(square: int, color: Color, role: int)

  /** The board's pieces in the order the library iterates over them. */
  type Board = seq<Piece>

  predicate ValidPiece(p: Piece) {
    0 <= p.square < 64 && 1 <= p.role <= 6
  }

  predicate ValidPieces(b: Board) {
    forall i :: 0 <= i < |b| ==> ValidPiece(b[i])
  }

  /** A board the library can produce: valid pieces, at most one per square. */
  predicate ValidBoard(b: Board) {
    && ValidPieces(b)
    && (forall i, j :: 0 <= i < j < |b| ==> b[i].square != b[j].square)
  }

  // ---------------------------------------------------------------------
  // The constant data

  /** Positional bonuses for White, indexed [role - 1][rank][file] from a1. The
      source lists each role's 64 squares a1 first, eight to a line; its flat
      square index s is [s / 8][s % 8] here. */
  const WHITE_PIECE_SQUARE_TABLES: seq<seq<seq<int>>> := [
    // pawn
    [
      [  0,   0,   0,   0,   0,   0,   0,   0],
      [  5,  10,  10, -20, -20,  10,  10,   5],
      [  5,  -5, -10,   0,   0, -10,  -5,   5],
      [  0,   0,   0,  20,  20,   0,   0,   0],
      [  5,   5,  10,  25,  25,  10,   5,   5],
      [ 10,  10,  20,  30,  30,  20,  10,  10],
      [ 50,  50,  50,  50,  50,  50,  50,  50],
      [  0,   0,   0,   0,   0,   0,   0,   0]
    ],
    // knight
    [
      [-50, -40, -30, -30, -30, -30, -40, -50],
      [-40, -20,   0,   5,   5,   0, -20, -40],
      [-30,   5,  10,  15,  15,  10,   5, -30],
      [-30,   0,  15,  20,  20,  15,   0, -30],
      [-30,   5,  15,  20,  20,  15,   5, -30],
      [-30,   0,  10,  15,  15,  10,   0, -30],
      [-40, -20,   0,   0,   0,   0, -20, -40],
      [-50, -40, -30, -30, -30, -30, -40, -50]
    ],
    // bishop
    [
      [-20, -10, -10, -10, -10, -10, -10, -20],
      [-10,   5,   0,   0,   0,   0,   5, -10],
      [-10,  10,  10,  10,  10,  10,  10, -10],
      [-10,   0,  10,  10,  10,  10,   0, -10],
      [-10,   5,   5,  10,  10,   5,   5, -10],
      [-10,   0,   5,  10,  10,   5,   0, -10],
      [-10,   0,   0,   0,   0,   0,   0, -10],
      [-20, -10, -10, -10, -10, -10, -10, -20]
    ],
    // rook
    [
      [  0,   0,   0,   5,   5,   0,   0,   0],
      [ -5,   0,   0,   0,   0,   0,   0,  -5],
      [ -5,   0,   0,   0,   0,   0,   0,  -5],
      [ -5,   0,   0,   0,   0,   0,   0,  -5],
      [ -5,   0,   0,   0,   0,   0,   0,  -5],
      [ -5,   0,   0,   0,   0,   0,   0,  -5],
      [  5,  10,  10,  10,  10,  10,  10,   5],
      [  0,   0,   0,   0,   0,   0,   0,   0]
    ],
    // queen
    [
      [-20, -10, -10,  -5,  -5, -10, -10, -20],
      [-10,   0,   0,   0,   0,   5,   0, -10],
      [-10,   0,   5,   5,   5,   5,   5, -10],
      [ -5,   0,   5,   5,   5,   5,   0,  -5],
      [ -5,   0,   5,   5,   5,   5,   0,  -5],
      [-10,   0,   5,   5,   5,   5,   0, -10],
      [-10,   0,   0,   0,   0,   0,   0, -10],
      [-20, -10, -10,  -5,  -5, -10, -10, -20]
    ],
    // king
    [
      [  0,  30,  10,   0,   0,  10,  30,  20],
      [ 20,  20,   0,   0,   0,   0,  20,  20],
      [-10, -20, -20, -20, -20, -20, -20, -10],
      [-20, -30, -30, -40, -40, -30, -30, -20],
      [-30, -40, -40, -50, -50, -40, -40, -30],
      [-30, -40, -40, -50, -50, -40, -40, -30],
      [-30, -40, -40, -50, -50, -40, -40, -30],
      [-30, -40, -40, -50, -50, -40, -40, -30]
    ]
  ]

  /** Positional bonuses for Black, laid out as White's. */
  const BLACK_PIECE_SQUARE_TABLES: seq<seq<seq<int>>> := [
    // pawn
    [
      [  0,   0,   0,   0,   0,   0,   0,   0],
      [ 50,  50,  50,  50,  50,  50,  50,  50],
      [ 10,  10,  20,  30,  30,  20,  10,  10],
      [  5,   5,  10,  25,  25,  10,   5,   5],
      [  0,   0,   0,  20,  20,   0,   0,   0],
      [  5,  -5, -10,   0,   0, -10,  -5,   5],
      [  5,  10,  10, -20, -20,  10,  10,   5],
      [  0,   0,   0,   0,   0,   0,   0,   0]
    ],
    // knight
    [
      [-50, -40, -30, -30, -30, -30, -40, -50],
      [-40, -20,   0,   0,   0,   0, -20, -40],
      [-30,   0,  10,  15,  15,  10,   0, -30],
      [-30,   5,  15,  20,  20,  15,   5, -30],
      [-30,   0,  15,  20,  20,  15,   0, -30],
      [-30,   5,  10,  15,  15,  10,   5, -30],
      [-40, -20,   0,   5,   5,   0, -20, -40],
      [-50, -40, -30, -30, -30, -30, -40, -50]
    ],
    // bishop
    [
      [-20, -10, -10, -10, -10, -10, -10, -20],
      [-10,   0,   0,   0,   0,   0,   0, -10],
      [-10,   0,   5,  10,  10,   5,   0, -10],
      [-10,   5,   5,  10,  10,   5,   5, -10],
      [-10,   0,  10,  10,  10,  10,   0, -10],
      [-10,  10,  10,  10,  10,  10,  10, -10],
      [ -5,  -5,   0,   0,   0,   0,  -5,  -5],
      [-20, -10, -10, -10, -10, -10, -10, -20]
    ],
    // rook
    [
      [  0,   0,   0,   0,   0,   0,   0,   0],
      [  5,  10,  10,  10,  10,  10,  10,   5],
      [ -5,   0,   5,   5,   5,   5,   0,  -5],
      [ -5,   0,   5,   5,   5,   5,   0,  -5],
      [ -5,   0,   0,   0,   0,   0,   0,  -5],
      [ -5,   0,   0,   0,   0,   0,   0,  -5],
      [  5,  10,  10, -20, -20,  10,  10,   5],
      [  0,   0,   0,   0,   0,   0,   0,   0]
    ],
    // queen
    [
      [-20, -10, -10,  -5,  -5, -10, -10, -20],
      [-10,   0,   0,   0,   0,   0,   0, -10],
      [-10,   0,   5,   5,   5,   5,   0, -10],
      [-10,   5,   5,   5,   5,   5,   0, -10],
      [-10,   0,   5,   5,   5,   5,   0, -10],
      [-10,   0,   0,   0,   0,   0,   0, -10],
      [-10,   5,   0,   0,   0,   0,   5, -10],
      [-20, -10, -10,  -5,  -5, -10, -10, -20]
    ],
    // king
    [
      [-30, -40, -40, -50, -50, -40, -40, -30],
      [-30, -40, -40, -50, -50, -40, -40, -30],
      [-30, -40, -40, -50, -50, -40, -40, -30],
      [-30, -40, -40, -50, -50, -40, -40, -30],
      [-20, -30, -30, -40, -40, -30, -30, -20],
      [-10, -20, -20, -20, -20, -20, -20, -10],
      [ 20,  20,   0,   0,   0,   0,  20,  20],
      [  0,  30,  10,   0,   0,  10,  30,  20]
    ]
  ]

  /** Six roles of eight ranks of eight files. */
  predicate RankShaped(t: seq<seq<seq<int>>>) {
    && |t| == 6
    && (forall r :: 0 <= r < 6 ==> |t[r]| == 8)
    && (forall r, k :: 0 <= r < 6 && 0 <= k < 8 ==> |t[r][k]| == 8)
  }

  lemma TablesShape()
    ensures RankShaped(WHITE_PIECE_SQUARE_TABLES) && RankShaped(BLACK_PIECE_SQUARE_TABLES)
  {
  }

  /** The bonus the source reads at flat index [role][sq]. */
  function Bonus(t: seq<seq<seq<int>>>, role: int, sq: int): int
    requires RankShaped(t) && 0 <= role < 6 && 0 <= sq < 64
  {
    t[role][sq / 8][sq % 8]
  }

  /** The material value that `init` adds to every square of role index `role`
      (0 = pawn, ..., 5 = king), with the source's fallback of 0. */
  function MaterialValue(role: int): (v: int)
    ensures 0 <= role < 6 ==> 100 <= v <= 20000
    ensures !(0 <= role < 6) ==> v == 0
  {
    if role == 0 then 100
    else if role == 1 then 320
    else if role == 2 then 330
    else if role == 3 then 500
    else if role == 4 then 900
    else if role == 5 then 20000
    else 0
  }

  /** What `init` stores in `w_square_tables[role][sq]`. */
  function WhiteEntry(role: int, sq: int): int
    requires 0 <= role < 6 && 0 <= sq < 64
  {
    TablesShape();
    MaterialValue(role) + Bonus(WHITE_PIECE_SQUARE_TABLES, role, sq)
  }

  /** What `init` stores in `b_square_tables[role][sq]`. */
  function BlackEntry(role: int, sq: int): int
    requires 0 <= role < 6 && 0 <= sq < 64
  {
    TablesShape();
    MaterialValue(role) + Bonus(BLACK_PIECE_SQUARE_TABLES, role, sq)
  }

  // ---------------------------------------------------------------------
  // The score, for any table contents

  /** The contents of the two tables, indexed [role index][square]. */
  datatype Tables = Tables(white: seq<seq<int>>, black: seq<seq<int>>)

  predicate Shaped(t: Tables) {
    && |t.white| == 6 && |t.black| == 6
    && (forall r :: 0 <= r < 6 ==> |t.white[r]| == 64 && |t.black[r]| == 64)
  }

  /** The tables as `init` leaves them. */
  function InitialTables(): (t: Tables)
    ensures Shaped(t)
    ensures forall r, s :: 0 <= r < 6 && 0 <= s < 64 ==>
      t.white[r][s] == WhiteEntry(r, s) && t.black[r][s] == BlackEntry(r, s)
  {
    Tables(seq(6, r requires 0 <= r < 6 => WhiteRow(r)), seq(6, r requires 0 <= r < 6 => BlackRow(r)))
  }

  /** The 64 entries `init` writes for role index `r` of each colour. */
  function WhiteRow(r: int): (row: seq<int>)
    requires 0 <= r < 6
    ensures |row| == 64 && forall s :: 0 <= s < 64 ==> row[s] == WhiteEntry(r, s)
  {
    seq(64, s requires 0 <= s < 64 => WhiteEntry(r, s))
  }

  function BlackRow(r: int): (row: seq<int>)
    requires 0 <= r < 6
    ensures |row| == 64 && forall s :: 0 <= s < 64 ==> row[s] == BlackEntry(r, s)
  {
    seq(64, s requires 0 <= s < 64 => BlackEntry(r, s))
  }

  /** A piece's share of the score before the side-to-move sign: its white
      entry added, or its black entry subtracted. */
  function PieceScore(t: Tables, p: Piece): (r: int)
    requires Shaped(t) && ValidPiece(p)
    ensures t == InitialTables() && p.color == White ==> r > 0
    ensures t == InitialTables() && p.color == Black ==> r < 0
  {
    EntriesNearMaterial(p.role - 1, p.square);
    if p.color == White then t.white[p.role - 1][p.square]
    else -t.black[p.role - 1][p.square]
  }

  /** The running sum the evaluation loop builds, piece by piece in board order. */
  function BoardScore(t: Tables, b: Board): int
    requires Shaped(t) && ValidPieces(b)
  {
    if b == [] then 0 else BoardScore(t, b[..|b| - 1]) + PieceScore(t, b[|b| - 1])
  }

  /** The score `simple_eval` computes: the board sum, negated when Black is to move. */
  function Evaluation(t: Tables, b: Board, turn: Color): int
    requires Shaped(t) && ValidPieces(b)
  {
    BoardScore(t, b) * if turn == White then 1 else -1
  }

  // ---------------------------------------------------------------------
  // The evaluator object

  class Eval {
    var wSquareTables: array2<int>
    var bSquareTables: array2<int>

    /** The two tables have the source's fixed 6 x 64 shape and are separate arrays. */
    predicate Allocated()
      reads this
    {
      && wSquareTables.Length0 == 6 && wSquareTables.Length1 == 64
      && bSquareTables.Length0 == 6 && bSquareTables.Length1 == 64
      && wSquareTables != bSquareTables
    }

    /** The tables hold exactly what `init` writes. */
    predicate Valid()
      reads this, wSquareTables, bSquareTables
      ensures Valid() ==> Allocated()
    {
      && Allocated()
      && (forall r, s :: 0 <= r < 6 && 0 <= s < 64 ==> wSquareTables[r, s] == WhiteEntry(r, s))
      && (forall r, s :: 0 <= r < 6 && 0 <= s < 64 ==> bSquareTables[r, s] == BlackEntry(r, s))
    }

    /** `Eval::default`: zeroed tables, then `init`. */
    constructor Default()
      ensures Valid()
      ensures fresh(wSquareTables) && fresh(bSquareTables)
    {
      wSquareTables := new int[6, 64]((r, s) => 0);
      bSquareTables := new int[6, 64]((r, s) => 0);
      new;
      Init();
    }

    /** `init`: overwrites every entry of both tables from constant data, so the
        result does not depend on what the tables held before and a second call
        leaves them as the first left them. */
    method Init()
      requires Allocated()
      modifies wSquareTables, bSquareTables
      ensures Valid()
    {
      TablesShape();
      for role := 0 to 6
        invariant forall r, s :: 0 <= r < role && 0 <= s < 64 ==>
          wSquareTables[r, s] == WhiteEntry(r, s) && bSquareTables[r, s] == BlackEntry(r, s)
      {
        var value := MaterialValue(role);
        for sq := 0 to 64
          invariant forall r, s :: 0 <= r < role && 0 <= s < 64 ==>
            wSquareTables[r, s] == WhiteEntry(r, s) && bSquareTables[r, s] == BlackEntry(r, s)
          invariant forall s :: 0 <= s < sq ==>
            wSquareTables[role, s] == WhiteEntry(role, s) && bSquareTables[role, s] == BlackEntry(role, s)
        {
          wSquareTables[role, sq] := value + Bonus(WHITE_PIECE_SQUARE_TABLES, role, sq);
          bSquareTables[role, sq] := value + Bonus(BLACK_PIECE_SQUARE_TABLES, role, sq);
        }
      }
    }

    /** `simple_eval`: reads the tables only, returns the evaluation of the
        board for the side to move, and never leaves the `i32` range on the way. */
    method SimpleEval(board: Board, turn: Color) returns (score: int)
      requires Valid() && ValidBoard(board)
      ensures score == Evaluation(InitialTables(), board, turn)
      ensures I32_MIN <= score <= I32_MAX
    {
      var t := InitialTables();
      var eval := 0;
      for i := 0 to |board|
        invariant eval == BoardScore(t, board[..i])
      {
        var piece := board[i];
        assert board[..i + 1][..i] == board[..i];
        PrefixScoreFitsI32(board, i + 1);
        if piece.color == White {
          eval := eval + wSquareTables[piece.role - 1, piece.square];
        } else {
          eval := eval - bSquareTables[piece.role - 1, piece.square];
        }
        assert I32_MIN <= eval <= I32_MAX;
      }
      assert board[..|board|] == board;
      EvaluationFitsI32(board, turn);
      score := eval * if turn == White then 1 else -1;
    }
  }

  // ---------------------------------------------------------------------
  // Properties of the score for any tables

  /** The score is additive over pieces: splitting the board anywhere splits the sum. */
  lemma {:induction false} BoardScoreAppend(t: Tables, a: Board, b: Board)
    requires Shaped(t) && ValidPieces(a) && ValidPieces(b)
    ensures ValidPieces(a + b)
    ensures BoardScore(t, a + b) == BoardScore(t, a) + BoardScore(t, b)
  {
    assert forall i :: 0 <= i < |a + b| ==> (a + b)[i] == if i < |a| then a[i] else b[i - |a|];
    if b == [] {
      assert a + b == a;
    } else {
      var b' := b[..|b| - 1];
      assert (a + b)[..|a + b| - 1] == a + b';
      BoardScoreAppend(t, a, b');
    }
  }

  /** Taking one piece out of the board takes its share out of the score. */
  lemma BoardScoreRemove(t: Tables, b: Board, k: int)
    requires Shaped(t) && ValidPieces(b) && 0 <= k < |b|
    ensures ValidPieces(b[..k] + b[k + 1..])
    ensures BoardScore(t, b) == BoardScore(t, b[..k] + b[k + 1..]) + PieceScore(t, b[k])
  {
    var b1, x, b2 := b[..k], [b[k]], b[k + 1..];
    assert b == (b1 + x) + b2;
    BoardScoreAppend(t, b1 + x, b2);
    assert (b1 + x)[..|b1 + x| - 1] == b1;
    BoardScoreAppend(t, b1, b2);
  }

  lemma MultisetRemove(a: Board, x: Piece, b: Board, k: int)
    requires multiset(a + [x]) == multiset(b) && 0 <= k < |b| && b[k] == x
    ensures multiset(a) == multiset(b[..k] + b[k + 1..])
  {
    assert b == b[..k] + [x] + b[k + 1..];
    calc {
      multiset(a) + multiset{x};
      multiset(a + [x]);
      multiset(b);
      multiset(b[..k] + [x] + b[k + 1..]);
      multiset(b[..k]) + multiset{x} + multiset(b[k + 1..]);
      multiset(b[..k] + b[k + 1..]) + multiset{x};
    }
    assert multiset(a) == multiset(a) + multiset{x} - multiset{x};
    assert multiset(b[..k] + b[k + 1..]) == multiset(b[..k] + b[k + 1..]) + multiset{x} - multiset{x};
  }

  /** The score does not depend on the order in which the library lists the pieces. */
  lemma {:induction false} BoardScorePermutation(t: Tables, a: Board, b: Board)
    requires Shaped(t) && ValidPieces(a) && ValidPieces(b)
    requires multiset(a) == multiset(b)
    ensures BoardScore(t, a) == BoardScore(t, b)
    decreases |a|
  {
    if a == [] {
      assert |b| == |multiset(b)| == 0;
    } else {
      var a', x := a[..|a| - 1], a[|a| - 1];
      assert a == a' + [x];
      assert x in multiset(b);
      var k :| 0 <= k < |b| && b[k] == x;
      MultisetRemove(a', x, b, k);
      BoardScoreRemove(t, b, k);
      BoardScorePermutation(t, a', b[..k] + b[k + 1..]);
    }
  }

  /** An empty board scores 0 for either side to move. */
  lemma EmptyBoardIsEven(t: Tables, turn: Color)
    requires Shaped(t)
    ensures Evaluation(t, [], turn) == 0
  {
  }

  /** The side to move only changes the sign of the score. */
  lemma SideToMoveNegates(t: Tables, b: Board)
    requires Shaped(t) && ValidPieces(b)
    ensures Evaluation(t, b, Black) == -Evaluation(t, b, White)
  {
  }

  /** Every entry lies within `m` of zero. */
  predicate EntriesBounded(t: Tables, m: int)
    requires Shaped(t)
  {
    forall r, s :: 0 <= r < 6 && 0 <= s < 64 ==> -m <= t.white[r][s] <= m && -m <= t.black[r][s] <= m
  }

  /** The running sum stays within `m` per piece. */
  lemma {:induction false} BoardScoreBound(t: Tables, b: Board, m: int)
    requires Shaped(t) && ValidPieces(b) && EntriesBounded(t, m)
    ensures -m * |b| <= BoardScore(t, b) <= m * |b|
  {
    if b != [] {
      BoardScoreBound(t, b[..|b| - 1], m);
      var p := b[|b| - 1];
      assert -m <= PieceScore(t, p) <= m;
      assert m * |b| == m * (|b| - 1) + m;
    }
  }

  /** Pigeonhole: pieces on pairwise different squares below `n` number at most `n`. */
  lemma {:induction false} DistinctSquaresBelow(b: Board, n: nat)
    requires forall i :: 0 <= i < |b| ==> 0 <= b[i].square < n
    requires forall i, j :: 0 <= i < j < |b| ==> b[i].square != b[j].square
    ensures |b| <= n
  {
    if |b| > 0 {
      assert 0 <= b[0].square < n;
      if k :| 0 <= k < |b| && b[k].square == n - 1 {
        var rest := b[..k] + b[k + 1..];
        assert forall i :: 0 <= i < |rest| ==> rest[i] == if i < k then b[i] else b[i + 1];
        DistinctSquaresBelow(rest, n - 1);
      } else {
        DistinctSquaresBelow(b, n - 1);
      }
    }
  }

  /** A board has at most one piece per square, hence at most 64 pieces. */
  lemma BoardAtMost64Pieces(b: Board)
    requires ValidBoard(b)
    ensures |b| <= 64
  {
    DistinctSquaresBelow(b, 64);
  }

  // ---------------------------------------------------------------------
  // Properties of the constant data

  /** The largest magnitude of any entry `init` writes: a king's 20000 plus a bonus of at most 50. */
  const MAX_ENTRY: int := 20050

  /** Every positional bonus lies in -50..50. */
  predicate BonusesBounded(t: seq<seq<int>>) {
    forall k, f :: 0 <= k < |t| && 0 <= f < |t[k]| ==> -50 <= t[k][f] <= 50
  }

  // One lemma per table row keeps each proof obligation small.
  lemma WhitePawnBonuses() ensures BonusesBounded(WHITE_PIECE_SQUARE_TABLES[0]) {}
  lemma WhiteKnightBonuses() ensures BonusesBounded(WHITE_PIECE_SQUARE_TABLES[1]) {}
  lemma WhiteBishopBonuses() ensures BonusesBounded(WHITE_PIECE_SQUARE_TABLES[2]) {}
  lemma WhiteRookBonuses() ensures BonusesBounded(WHITE_PIECE_SQUARE_TABLES[3]) {}
  lemma WhiteQueenBonuses() ensures BonusesBounded(WHITE_PIECE_SQUARE_TABLES[4]) {}
  lemma WhiteKingBonuses() ensures BonusesBounded(WHITE_PIECE_SQUARE_TABLES[5]) {}
  lemma BlackPawnBonuses() ensures BonusesBounded(BLACK_PIECE_SQUARE_TABLES[0]) {}
  lemma BlackKnightBonuses() ensures BonusesBounded(BLACK_PIECE_SQUARE_TABLES[1]) {}
  lemma BlackBishopBonuses() ensures BonusesBounded(BLACK_PIECE_SQUARE_TABLES[2]) {}
  lemma BlackRookBonuses() ensures BonusesBounded(BLACK_PIECE_SQUARE_TABLES[3]) {}
  lemma BlackQueenBonuses() ensures BonusesBounded(BLACK_PIECE_SQUARE_TABLES[4]) {}
  lemma BlackKingBonuses() ensures BonusesBounded(BLACK_PIECE_SQUARE_TABLES[5]) {}

  lemma BonusBounds(r: int)
    requires 0 <= r < 6
    ensures BonusesBounded(WHITE_PIECE_SQUARE_TABLES[r]) && BonusesBounded(BLACK_PIECE_SQUARE_TABLES[r])
  {
    TablesShape();
    if r == 0 { WhitePawnBonuses(); BlackPawnBonuses(); }
    else if r == 1 { WhiteKnightBonuses(); BlackKnightBonuses(); }
    else if r == 2 { WhiteBishopBonuses(); BlackBishopBonuses(); }
    else if r == 3 { WhiteRookBonuses(); BlackRookBonuses(); }
    else if r == 4 { WhiteQueenBonuses(); BlackQueenBonuses(); }
    else { WhiteKingBonuses(); BlackKingBonuses(); }
  }

  /** Every entry `init` writes is its role's material value give or take 50. */
  lemma EntriesNearMaterial(role: int, sq: int)
    requires 0 <= role < 6 && 0 <= sq < 64
    ensures MaterialValue(role) - 50 <= WhiteEntry(role, sq) <= MaterialValue(role) + 50
    ensures MaterialValue(role) - 50 <= BlackEntry(role, sq) <= MaterialValue(role) + 50
  {
    TablesShape();
    BonusBounds(role);
    assert 0 <= sq / 8 < 8 && 0 <= sq % 8 < 8;
  }

  lemma InitialEntriesBounded()
    ensures EntriesBounded(InitialTables(), MAX_ENTRY)
  {
    TablesShape();
    forall r, s | 0 <= r < 6 && 0 <= s < 64
      ensures -MAX_ENTRY <= WhiteEntry(r, s) <= MAX_ENTRY && -MAX_ENTRY <= BlackEntry(r, s) <= MAX_ENTRY
    {
      EntriesNearMaterial(r, s);
    }
  }

  /** On a board the library can produce, every running sum of the evaluation
      loop fits the source's `i32`. */
  lemma PrefixScoreFitsI32(b: Board, i: int)
    requires ValidBoard(b) && 0 <= i <= |b|
    ensures ValidPieces(b[..i])
    ensures -MAX_ENTRY * 64 <= BoardScore(InitialTables(), b[..i]) <= MAX_ENTRY * 64
    ensures I32_MIN <= BoardScore(InitialTables(), b[..i]) <= I32_MAX
  {
    var p := b[..i];
    assert ValidBoard(p);
    BoardAtMost64Pieces(p);
    InitialEntriesBounded();
    BoardScoreBound(InitialTables(), p, MAX_ENTRY);
    assert MAX_ENTRY * |p| <= MAX_ENTRY * 64;
  }

  /** On a board the library can produce, the score of the initial tables fits the source's `i32`. */
  lemma EvaluationFitsI32(b: Board, turn: Color)
    requires ValidBoard(b)
    ensures I32_MIN <= Evaluation(InitialTables(), b, turn) <= I32_MAX
  {
    PrefixScoreFitsI32(b, |b|);
    assert b[..|b|] == b;
  }

  /** Reflection of a square across the board's horizontal midline: same file, rank 7 - rank. */
  function MirrorSquare(s: int): (m: int)
    requires 0 <= s < 64
    ensures 0 <= m < 64 && m % 8 == s % 8 && m / 8 == 7 - s / 8
  {
    (7 - s / 8) * 8 + s % 8
  }

  lemma MirrorSquareInvolution(s: int)
    requires 0 <= s < 64
    ensures MirrorSquare(MirrorSquare(s)) == s
  {
  }

  /** A table listed with its ranks in reverse order. */
  function RanksReversed(t: seq<seq<int>>): (r: seq<seq<int>>)
    requires |t| == 8
    ensures |r| == 8 && forall k :: 0 <= k < 8 ==> r[k] == t[7 - k]
  {
    [t[7], t[6], t[5], t[4], t[3], t[2], t[1], t[0]]
  }

  /** The pawn, knight and king tables of Black are White's, rank-reversed. */
  lemma PawnTablesMirrored()
    ensures |WHITE_PIECE_SQUARE_TABLES[0]| == 8
    ensures BLACK_PIECE_SQUARE_TABLES[0] == RanksReversed(WHITE_PIECE_SQUARE_TABLES[0])
  {
  }

  lemma KnightTablesMirrored()
    ensures |WHITE_PIECE_SQUARE_TABLES[1]| == 8
    ensures BLACK_PIECE_SQUARE_TABLES[1] == RanksReversed(WHITE_PIECE_SQUARE_TABLES[1])
  {
  }

  lemma KingTablesMirrored()
    ensures |WHITE_PIECE_SQUARE_TABLES[5]| == 8
    ensures BLACK_PIECE_SQUARE_TABLES[5] == RanksReversed(WHITE_PIECE_SQUARE_TABLES[5])
  {
  }

  /** Pawns, knights and kings: the roles whose black table mirrors the white one. */
  predicate MirroredRole(role: int) {
    role == 1 || role == 2 || role == 6
  }

  /** For pawns, knights and kings, Black's entry on a square is White's entry
      on the mirrored square. */
  lemma BlackMirrorsWhite(role: int, s: int)
    requires MirroredRole(role) && 0 <= s < 64
    ensures BlackEntry(role - 1, s) == WhiteEntry(role - 1, MirrorSquare(s))
  {
    TablesShape();
    var r := role - 1;
    if r == 0 { PawnTablesMirrored(); }
    else if r == 1 { KnightTablesMirrored(); }
    else { KingTablesMirrored(); }
    assert MirrorSquare(s) / 8 == 7 - s / 8 && MirrorSquare(s) % 8 == s % 8;
  }

  /** The piece of the other colour on the reflected square. */
  function MirrorPiece(p: Piece): (m: Piece)
    requires ValidPiece(p)
    ensures ValidPiece(m)
  {
    Piece(MirrorSquare(p.square), Opponent(p.color), p.role)
  }

  /** The same position with colours swapped and the board reflected. */
  function MirrorBoard(b: Board): (m: Board)
    requires ValidPieces(b)
    ensures |m| == |b| && ValidPieces(m)
  {
    if b == [] then [] else MirrorBoard(b[..|b| - 1]) + [MirrorPiece(b[|b| - 1])]
  }

  /** A mirrored piece's share is the negated share of the original. */
  lemma MirrorPieceNegates(p: Piece)
    requires ValidPiece(p) && MirroredRole(p.role)
    ensures PieceScore(InitialTables(), MirrorPiece(p)) == -PieceScore(InitialTables(), p)
  {
    MirrorSquareInvolution(p.square);
    BlackMirrorsWhite(p.role, p.square);
    BlackMirrorsWhite(p.role, MirrorSquare(p.square));
  }

  /** With only pawns, knights and kings on the board, swapping colours and
      reflecting the board negates the score. */
  lemma {:induction false} MirrorBoardNegates(b: Board)
    requires ValidPieces(b) && forall i :: 0 <= i < |b| ==> MirroredRole(b[i].role)
    ensures BoardScore(InitialTables(), MirrorBoard(b)) == -BoardScore(InitialTables(), b)
  {
    if b != [] {
      var init := b[..|b| - 1];
      var m := MirrorBoard(b);
      assert m[..|m| - 1] == MirrorBoard(init);
      MirrorBoardNegates(init);
      MirrorPieceNegates(b[|b| - 1]);
    }
  }

  /** A white king and a black king on mirrored squares balance exactly. */
  lemma MirroredKingsBalance(s: int, turn: Color)
    requires 0 <= s < 64
    ensures Evaluation(InitialTables(), [Piece(s, White, 6), Piece(MirrorSquare(s), Black, 6)], turn) == 0
  {
    var k := [Piece(s, White, 6)];
    var m := MirrorBoard(k);
    MirrorBoardNegates(k);
    assert m == [Piece(MirrorSquare(s), Black, 6)] by {
      assert k[..0] == [];
    }
    assert k + m == [Piece(s, White, 6), Piece(MirrorSquare(s), Black, 6)];
    BoardScoreAppend(InitialTables(), k, m);
  }

  /** The rook tables are not mirrored: a white rook on d1 facing a black rook
      on d8 is not an even position. */
  lemma RookTablesNotMirrored()
    ensures Evaluation(InitialTables(), [Piece(3, White, 4), Piece(59, Black, 4)], White) == 5
  {
    var b := [Piece(3, White, 4), Piece(59, Black, 4)];
    var t := InitialTables();
    assert b[..1] == [b[0]] && [b[0]][..0] == [];
    TablesShape();
    assert WHITE_PIECE_SQUARE_TABLES[3][0][3] == 5 && BLACK_PIECE_SQUARE_TABLES[3][7][3] == 0;
    assert BoardScore(t, b[..1]) == WhiteEntry(3, 3);
    assert BoardScore(t, b) == WhiteEntry(3, 3) - BlackEntry(3, 59);
  }
}
