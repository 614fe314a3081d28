/** The board as an ordered list of live pieces, and its positional queries:
    the piece on a square, the squares between two squares, and whether a
    sliding move is obstructed (src/board.rs). */
module Boards {
  import opened Wrappers
  import opened Types
  import opened Pieces

  /** Boards compare as ordered lists, as the derived-style `PartialEq` on the
      piece vector does: Dafny's `==` on this datatype is that comparison. */
  datatype Board = Board(pieces: seq<Piece>)

  // ---------------------------------------------------------------------------
  // The initial position.

  /** The piece the initial board holds at index `i`: rooks 0-3, knights 4-7,
      bishops 8-11, queens 12-13, kings 14-15, White before Black in each pair;
      then the pawns of file j at 16 + 2j (White, rank 1) and 17 + 2j (Black, rank 6). */
  function HomePiece(i: nat): Piece
    requires i < 32
  {
    var colour := if i % 2 == 0 then White else Black;
    if i >= 16 then
      Piece(Square((i - 16) / 2, if colour == White then 1 else 6), Pawn, colour)
    else if i >= 12 then
      Piece(Square(if i < 14 then 3 else 4, if i % 2 == 0 then 0 else 7),
            if i < 14 then Queen else King, colour)
    else
      var group, slot := i / 4, i % 4;
      var side := if slot < 2 then White else Black;
      Piece(Square(if slot % 2 == 0 then group else 7 - group, HomeRank(side)),
            [Rook, Knight, Bishop][group], side)
  }

  function InitialBoard(): Board
  {
    Board(seq(32, i requires 0 <= i < 32 => HomePiece(i)))
  }

  /** The sixteen back-rank pieces in the order `Board::default` pushes them. */
  const BackRanks: seq<Piece> :=
    [Piece(Square(0, 0), Rook, White), Piece(Square(7, 0), Rook, White),
     Piece(Square(0, 7), Rook, Black), Piece(Square(7, 7), Rook, Black),
     Piece(Square(1, 0), Knight, White), Piece(Square(6, 0), Knight, White),
     Piece(Square(1, 7), Knight, Black), Piece(Square(6, 7), Knight, Black),
     Piece(Square(2, 0), Bishop, White), Piece(Square(5, 0), Bishop, White),
     Piece(Square(2, 7), Bishop, Black), Piece(Square(5, 7), Bishop, Black),
     Piece(Square(3, 0), Queen, White), Piece(Square(3, 7), Queen, Black),
     Piece(Square(4, 0), King, White), Piece(Square(4, 7), King, Black)]

  /** The pushed back ranks are the first sixteen pieces of the initial board. */
  lemma BackRanksAreHome()
    ensures forall k :: 0 <= k < 16 ==> BackRanks[k] == HomePiece(k)
  {
  }

  /** The two pawns of file `i`, White's first. */
  lemma InitialPawns(i: nat)
    requires i < 8
    ensures HomePiece(16 + 2 * i) == Piece(Square(i, 1), Pawn, White)
    ensures HomePiece(17 + 2 * i) == Piece(Square(i, 6), Pawn, Black)
  {
    assert (16 + 2 * i) % 2 == 0 && (16 + 2 * i - 16) / 2 == i;
    assert (17 + 2 * i) % 2 == 1 && (17 + 2 * i - 16) / 2 == i;
  }

  /** `Board::default()`: sixteen pushes, then two pawns per file in a loop. */
  method DefaultBoard() returns (b: Board)
    ensures b == InitialBoard()
  {
    var pieces: seq<Piece> := [];
    pieces := pieces + [Piece(Square(0, 0), Rook, White)];
    pieces := pieces + [Piece(Square(7, 0), Rook, White)];
    pieces := pieces + [Piece(Square(0, 7), Rook, Black)];
    pieces := pieces + [Piece(Square(7, 7), Rook, Black)];

    pieces := pieces + [Piece(Square(1, 0), Knight, White)];
    pieces := pieces + [Piece(Square(6, 0), Knight, White)];
    pieces := pieces + [Piece(Square(1, 7), Knight, Black)];
    pieces := pieces + [Piece(Square(6, 7), Knight, Black)];

    pieces := pieces + [Piece(Square(2, 0), Bishop, White)];
    pieces := pieces + [Piece(Square(5, 0), Bishop, White)];
    pieces := pieces + [Piece(Square(2, 7), Bishop, Black)];
    pieces := pieces + [Piece(Square(5, 7), Bishop, Black)];

    pieces := pieces + [Piece(Square(3, 0), Queen, White)];
    pieces := pieces + [Piece(Square(3, 7), Queen, Black)];

    pieces := pieces + [Piece(Square(4, 0), King, White)];
    pieces := pieces + [Piece(Square(4, 7), King, Black)];

    assert pieces == BackRanks;
    BackRanksAreHome();
    for i := 0 to 8
      invariant |pieces| == 16 + 2 * i
      invariant forall k :: 0 <= k < |pieces| ==> pieces[k] == HomePiece(k)
    {
      InitialPawns(i);
      pieces := pieces + [Piece(Square(i, 1), Pawn, White)];
      pieces := pieces + [Piece(Square(i, 6), Pawn, Black)];
    }
    assert forall k :: 0 <= k < 32 ==> InitialBoard().pieces[k] == HomePiece(k);
    b := Board(pieces);
  }

  /** No piece of the initial board stands on ranks 2 to 5. */
  lemma InitialMiddleEmpty(t: Square)
    requires 2 <= t.rank <= 5
    ensures !Occupied(InitialBoard(), t)
  {
    forall i | 0 <= i < 32
      ensures InitialBoard().pieces[i].pos.rank != t.rank
    {
      assert InitialBoard().pieces[i] == HomePiece(i);
    }
  }

  /** The back-rank pieces stand on ranks 0 and 7; the pawn pair of file f sits
      at indices 16 + 2f (rank 1) and 17 + 2f (rank 6). */
  lemma HomeSquare(j: nat)
    requires j < 32
    ensures j < 16 ==> HomePiece(j).pos.rank == 0 || HomePiece(j).pos.rank == 7
    ensures j >= 16 ==> HomePiece(j).pos == Square((j - 16) / 2, if j % 2 == 0 then 1 else 6)
  {
  }

  /** Where each square of the initial position sits in its list (inverse of HomePiece). */
  function HomeIndex(s: Square): int
  {
    var c := if s.rank == 0 || s.rank == 1 then 0 else 1;
    if s.rank == 1 || s.rank == 6 then 16 + 2 * s.file + c
    else if s.file == 3 then 12 + c
    else if s.file == 4 then 14 + c
    else
      var group := if s.file < 4 then s.file else 7 - s.file;
      4 * group + 2 * c + (if s.file < 4 then 0 else 1)
  }

  /** The initial position holds 32 pieces on 32 distinct squares, all on the board. */
  lemma InitialSquaresDistinct()
    ensures |InitialBoard().pieces| == 32
    ensures forall i :: 0 <= i < 32 ==> 0 <= HomePiece(i).pos.file < 8 && 0 <= HomePiece(i).pos.rank < 8
    ensures forall i, j :: 0 <= i < j < 32 ==> InitialBoard().pieces[i].pos != InitialBoard().pieces[j].pos
  {
    forall i | 0 <= i < 32
      ensures HomeIndex(HomePiece(i).pos) == i
      ensures 0 <= HomePiece(i).pos.file < 8 && 0 <= HomePiece(i).pos.rank < 8
    {
      if i >= 16 {
        var j := (i - 16) / 2;
        assert i == 16 + 2 * j + i % 2;
      }
    }
  }

  // ---------------------------------------------------------------------------
  // Finding a piece.

  /** `iter().filter(pos == (x, y)).nth(0)`: the first piece on a square. */
  function FirstAt(ps: seq<Piece>, s: Square): (r: Option<Piece>)
    ensures r.None? <==> forall i :: 0 <= i < |ps| ==> ps[i].pos != s
    ensures r.Some? ==> exists k :: 0 <= k < |ps| && ps[k] == r.value && ps[k].pos == s &&
                                   forall j :: 0 <= j < k ==> ps[j].pos != s
  {
    if |ps| == 0 then None
    else if ps[0].pos == s then Some(ps[0])
    else
      var r := FirstAt(ps[1..], s);
      if r.Some? then
        ghost var k :| 0 <= k < |ps[1..]| && ps[1..][k] == r.value && ps[1..][k].pos == s &&
          forall j :: 0 <= j < k ==> ps[1..][j].pos != s;
        assert ps[k + 1] == r.value && forall j :: 0 <= j < k + 1 ==> ps[j].pos != s;
        r
      else r
  }

  /** `iter().position(|x| x == p)`: the first index holding a piece equal to `p`. */
  function IndexOf(ps: seq<Piece>, p: Piece): (i: nat)
    requires p in ps
    ensures i < |ps| && ps[i] == p && p !in ps[..i]
  {
    if ps[0] == p then 0 else 1 + IndexOf(ps[1..], p)
  }

  /** `find_piece_by_pos`: the index of the first piece on (x, y), None when the
      square is empty. Pieces carry no identity, so the Rust code looks the found
      piece up again by equality; that lands on the same index. */
  function FindPieceByPos(b: Board, x: int, y: int): (r: Option<nat>)
    ensures r.None? <==> forall i :: 0 <= i < |b.pieces| ==> b.pieces[i].pos != Square(x, y)
    ensures r.Some? ==> r.value < |b.pieces| && b.pieces[r.value].pos == Square(x, y)
    ensures r.Some? ==> forall j :: 0 <= j < r.value ==> b.pieces[j].pos != Square(x, y)
  {
    match FirstAt(b.pieces, Square(x, y))
    case None => None
    case Some(p) =>
      var i := IndexOf(b.pieces, p);
      assert b.pieces[i].pos == Square(x, y);
      Some(i)
  }

  /** Some piece stands on `t`. */
  predicate Occupied(b: Board, t: Square)
  {
    exists i :: 0 <= i < |b.pieces| && b.pieces[i].pos == t
  }

  /** On the initial board, the white rooks are found at indices 0 and 1. */
  lemma FindOnInitialBoard()
    ensures FindPieceByPos(InitialBoard(), 0, 0) == Some(0)
    ensures FindPieceByPos(InitialBoard(), 7, 0) == Some(1)
  {
    assert InitialBoard().pieces[0].pos == Square(0, 0);
    assert InitialBoard().pieces[1].pos == Square(7, 0);
  }

  // ---------------------------------------------------------------------------
  // The squares between two squares.

  /** `(lo..hi).len()`. */
  function RangeLen(lo: int, hi: int): nat
  {
    if lo < hi then hi - lo else 0
  }

  /** The iterator adapter `skip(1)`. */
  function Skip1<T>(s: seq<T>): seq<T>
  {
    if |s| == 0 then [] else s[1..]
  }

  /** `n` squares up file `f`, from rank `r`. */
  function Column(f: int, r: int, n: nat): (l: seq<Square>)
    ensures |l| == n && forall k :: 0 <= k < n ==> l[k] == Square(f, r + k)
  {
    seq(n, k => Square(f, r + k))
  }

  /** `n` squares right along rank `r`, from file `f`. */
  function Row(f: int, r: int, n: nat): (l: seq<Square>)
    ensures |l| == n && forall k :: 0 <= k < n ==> l[k] == Square(f + k, r)
  {
    seq(n, k => Square(f + k, r))
  }

  /** `n` squares up-right along a diagonal, from (f, r). */
  function Diagonal(f: int, r: int, n: nat): (l: seq<Square>)
    ensures |l| == n && forall k :: 0 <= k < n ==> l[k] == Square(f + k, r + k)
  {
    seq(n, k => Square(f + k, r + k))
  }

  /** `get_tiles_between`, as written: the branch depends only on whether the
      file range `a.file..b.file` and the rank range `a.rank..b.rank` are empty. */
  function TilesBetween(a: Square, b: Square): (r: Option<seq<Square>>)
    ensures r.None? <==> a.file < b.file && a.rank < b.rank && b.file - a.file != b.rank - a.rank
  {
    var nx, ny := RangeLen(a.file, b.file), RangeLen(a.rank, b.rank);
    if nx == 0 then Some(Skip1(Column(a.file, a.rank, ny)))
    else if ny == 0 then Some(Skip1(Row(a.file, a.rank, nx)))
    else if nx == ny then Some(Skip1(Diagonal(a.file, a.rank, nx)))
    else None
  }

  /** What each branch returns. Going up a file, right along a rank or up-right
      along a diagonal, the result is the squares strictly between, from `a`'s
      side; every other direction is read on `a`'s own file or rank. */
  lemma TilesBetweenCases(a: Square, b: Square)
    ensures a.file >= b.file ==>
      TilesBetween(a, b) == Some(Column(a.file, a.rank + 1, RangeLen(a.rank + 1, b.rank)))
    ensures a.file < b.file && a.rank >= b.rank ==>
      TilesBetween(a, b) == Some(Row(a.file + 1, a.rank, b.file - a.file - 1))
    ensures a.file < b.file && a.rank < b.rank && b.file - a.file == b.rank - a.rank ==>
      TilesBetween(a, b) == Some(Diagonal(a.file + 1, a.rank + 1, b.file - a.file - 1))
    ensures TilesBetween(a, b).None? <==>
      a.file < b.file && a.rank < b.rank && b.file - a.file != b.rank - a.rank
  {
    var nx, ny := RangeLen(a.file, b.file), RangeLen(a.rank, b.rank);
    if a.file >= b.file {
      assert Skip1(Column(a.file, a.rank, ny)) == Column(a.file, a.rank + 1, RangeLen(a.rank + 1, b.rank));
    } else if a.rank >= b.rank {
      assert Skip1(Row(a.file, a.rank, nx)) == Row(a.file + 1, a.rank, b.file - a.file - 1);
    } else if nx == ny {
      assert Skip1(Diagonal(a.file, a.rank, nx)) == Diagonal(a.file + 1, a.rank + 1, b.file - a.file - 1);
    }
  }

  /** Whenever a list comes back, it holds neither endpoint. */
  lemma TilesBetweenExcludesEnds(a: Square, b: Square)
    requires TilesBetween(a, b).Some?
    ensures a !in TilesBetween(a, b).value && b !in TilesBetween(a, b).value
  {
    TilesBetweenCases(a, b);
  }

  /** The asymmetry of the branches: read from its far end a file gives nothing,
      and an up-left diagonal from (2, 0) to (0, 2) is read on file 2, not on
      the diagonal square (1, 1). */
  lemma TilesBetweenIsAsymmetric()
    ensures TilesBetween(Square(3, 7), Square(3, 0)) == Some([])
    ensures TilesBetween(Square(2, 0), Square(0, 2)) == Some([Square(2, 1)])
  {
    TilesBetweenCases(Square(3, 7), Square(3, 0));
    TilesBetweenCases(Square(2, 0), Square(0, 2));
    assert Column(2, 1, 1) == [Square(2, 1)];
  }

  /** The two worked examples of the Rust code's tests. */
  lemma TilesBetweenExamples()
    ensures TilesBetween(Square(3, 0), Square(3, 7)) ==
      Some([Square(3, 1), Square(3, 2), Square(3, 3), Square(3, 4), Square(3, 5), Square(3, 6)])
    ensures TilesBetween(Square(0, 0), Square(7, 7)) ==
      Some([Square(1, 1), Square(2, 2), Square(3, 3), Square(4, 4), Square(5, 5), Square(6, 6)])
  {
    TilesBetweenCases(Square(3, 0), Square(3, 7));
    TilesBetweenCases(Square(0, 0), Square(7, 7));
    var onFile := [Square(3, 1), Square(3, 2), Square(3, 3), Square(3, 4), Square(3, 5), Square(3, 6)];
    var onDiagonal := [Square(1, 1), Square(2, 2), Square(3, 3), Square(4, 4), Square(5, 5), Square(6, 6)];
    assert forall k :: 0 <= k < 6 ==> Column(3, 1, 6)[k] == onFile[k];
    assert forall k :: 0 <= k < 6 ==> Diagonal(1, 1, 6)[k] == onDiagonal[k];
    assert Column(3, 1, 6) == onFile && Diagonal(1, 1, 6) == onDiagonal;
  }

  // ---------------------------------------------------------------------------
  // Obstruction.

  /** The squares of `ts` that some piece stands on, in order. */
  function OccupiedAmong(b: Board, ts: seq<Square>): (r: seq<Square>)
    ensures forall t :: t in r <==> t in ts && Occupied(b, t)
  {
    if |ts| == 0 then []
    else
      var rest := OccupiedAmong(b, ts[1..]);
      assert forall t :: t in ts <==> t == ts[0] || t in ts[1..];
      if FindPieceByPos(b, ts[0].file, ts[0].rank).Some? then [ts[0]] + rest else rest
  }

  /** `check_for_collisions`: never blocked for pawns, kings and knights. For a
      sliding kind it panics exactly when `get_tiles_between` gives none (the
      target strictly above and to the right, with unequal spans), and is
      otherwise true exactly when a square of that list is occupied. That list
      is the squares strictly between only for moves up, right or up-right
      (see `TilesBetweenCases`). */
  function CheckForCollisions(b: Board, from: Square, to: Square, kind: PieceType): (r: Result<bool>)
    ensures !Slides(kind) ==> r == Ok(false)
    ensures Slides(kind) ==> (r.Fail? <==> TilesBetween(from, to).None?)
    ensures Slides(kind) && r.Ok? ==>
      (r.value <==> exists t :: t in TilesBetween(from, to).value && Occupied(b, t))
  {
    match kind
    case Pawn | King | Knight => Ok(false)
    case _ =>
      match TilesBetween(from, to)
      case None => Fail(NotALine)
      case Some(between) =>
        var full := OccupiedAmong(b, between);
        assert |full| > 0 ==> full[0] in full;
        Ok(|between| > 0 && |full| > 0)
  }

  /** Boards compare in order: the same pieces in another order make another board. */
  lemma BoardEqualityIsOrdered(p: Piece, q: Piece)
    requires p != q
    ensures multiset(Board([p, q]).pieces) == multiset(Board([q, p]).pieces)
    ensures Board([p, q]) != Board([q, p])
  {
    assert Board([p, q]).pieces[0] != Board([q, p]).pieces[0];
  }
}
