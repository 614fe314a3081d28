/** A piece and the squares it could move to or capture on (src/piece.rs).
    The lists over-generate: no board clipping, no friendly-piece test, no
    obstruction test; the resolver filters them. */
module Pieces {
  import opened Types

  datatype Piece = Piece(pos: Square, kind: PieceType, colour: Colour)

  /** Queens, bishops and rooks slide along lines. */
  predicate Slides(kind: PieceType)
  {
    kind == Queen || kind == Bishop || kind == Rook
  }

  /** Squares a sliding kind pushes for one offset `i` of `for i in -8..8`, in push order. */
  function SlideStep(kind: PieceType, at: Square, i: int): seq<Square>
  {
    var f, r := at.file, at.rank;
    match kind
    case Queen => [Square(f + i, r + i), Square(f + i, r - i), Square(f, r + i), Square(f + i, r)]
    case Bishop => [Square(f + i, r + i), Square(f + i, r - i)]
    case Rook => [Square(f, r + i), Square(f + i, r)]
    case _ => []
  }

  /** How many squares one offset pushes. */
  function Width(kind: PieceType): nat
  {
    match kind
    case Queen => 4
    case Bishop => 2
    case Rook => 2
    case _ => 0
  }

  /** The list after the first `n` offsets -8, -7, ..., n - 9. */
  function Sweep(kind: PieceType, at: Square, n: nat): (r: seq<Square>)
    ensures |r| == n * Width(kind)
  {
    if n == 0 then [] else Sweep(kind, at, n - 1) + SlideStep(kind, at, n - 9)
  }

  /** A pawn moves one square forward, or two from its starting rank. */
  function PawnTiles(p: Piece): seq<Square>
  {
    var f, r := p.pos.file, p.pos.rank;
    if p.colour == White then
      if r == 1 then [Square(f, r + 1), Square(f, r + 2)] else [Square(f, r + 1)]
    else
      if r == 6 then [Square(f, r - 1), Square(f, r - 2)] else [Square(f, r - 1)]
  }

  /** A king moves to a neighbour, or to the one castling square. */
  function KingTiles(p: Piece, castle: Castle): seq<Square>
  {
    var f, r := p.pos.file, p.pos.rank;
    match castle
    case No => [Square(f, r + 1), Square(f + 1, r + 1), Square(f + 1, r), Square(f + 1, r - 1),
                Square(f, r - 1), Square(f - 1, r - 1), Square(f - 1, r), Square(f - 1, r + 1)]
    case Short(rook) => [Square(6, rook.rank)]
    case Long(rook) => [Square(2, rook.rank)]
  }

  function KnightTiles(p: Piece): seq<Square>
  {
    var f, r := p.pos.file, p.pos.rank;
    [Square(f + 1, r + 2), Square(f - 1, r + 2), Square(f + 2, r + 1), Square(f + 2, r - 1),
     Square(f - 2, r + 1), Square(f - 2, r - 1), Square(f + 1, r - 2), Square(f - 1, r - 2)]
  }

  /** `get_move_tiles`, as the value the resolver tests destinations against. */
  function MoveTiles(p: Piece, castle: Castle): seq<Square>
  {
    match p.kind
    case Pawn => PawnTiles(p)
    case King => KingTiles(p, castle)
    case Knight => KnightTiles(p)
    case _ => Sweep(p.kind, p.pos, 16)
  }

  /** `get_move_tiles` as the Rust code runs it: the sliding kinds push into a list in a loop. */
  method GetMoveTiles(p: Piece, castle: Castle) returns (tiles: seq<Square>)
    ensures tiles == MoveTiles(p, castle)
  {
    var f, r := p.pos.file, p.pos.rank;
    match p.kind {
      case Pawn => tiles := PawnTiles(p);
      case King => tiles := KingTiles(p, castle);
      case Knight => tiles := KnightTiles(p);
      case Queen =>
        var temp: seq<Square> := [];
        for i := -8 to 8
          invariant temp == Sweep(Queen, p.pos, i + 8)
        {
          temp := temp + [Square(f + i, r + i)];
          temp := temp + [Square(f + i, r - i)];
          temp := temp + [Square(f, r + i)];
          temp := temp + [Square(f + i, r)];
        }
        tiles := temp;
      case Bishop =>
        var temp: seq<Square> := [];
        for i := -8 to 8
          invariant temp == Sweep(Bishop, p.pos, i + 8)
        {
          temp := temp + [Square(f + i, r + i)];
          temp := temp + [Square(f + i, r - i)];
        }
        tiles := temp;
      case Rook =>
        var temp: seq<Square> := [];
        for i := -8 to 8
          invariant temp == Sweep(Rook, p.pos, i + 8)
        {
          temp := temp + [Square(f, r + i)];
          temp := temp + [Square(f + i, r)];
        }
        tiles := temp;
    }
  }

  /** `get_capture_tiles`: a pawn captures on its two forward diagonals; every
      other kind captures where it moves. */
  function CaptureTiles(p: Piece, castle: Castle): seq<Square>
  {
    var f, r := p.pos.file, p.pos.rank;
    match p.kind
    case Pawn =>
      if p.colour == White then [Square(f + 1, r + 1), Square(f - 1, r + 1)]
      else [Square(f + 1, r - 1), Square(f - 1, r - 1)]
    case _ => MoveTiles(p, castle)
  }

  // ---------------------------------------------------------------------------
  // What the lists mean.

  /** One step forward for a colour. */
  function Forward(colour: Colour): int
  {
    if colour == White then 1 else -1
  }

  /** Where a sliding kind reaches from `at`, with offsets in -8..7. */
  predicate SlideReach(kind: PieceType, at: Square, t: Square)
  {
    var df, dr := t.file - at.file, t.rank - at.rank;
    var straight := (df == 0 && -8 <= dr < 8) || (dr == 0 && -8 <= df < 8);
    var diagonal := -8 <= df < 8 && (dr == df || dr == -df);
    match kind
    case Queen => straight || diagonal
    case Bishop => diagonal
    case Rook => straight
    case _ => false
  }

  lemma {:induction false} SweepMember(kind: PieceType, at: Square, n: nat, t: Square)
    ensures t in Sweep(kind, at, n) <==> exists i :: -8 <= i < n - 8 && t in SlideStep(kind, at, i)
  {
    if n > 0 {
      SweepMember(kind, at, n - 1, t);
    }
  }

  /** A sliding piece's list holds exactly the squares on its lines within the
      offsets -8..7: every rook square shares its file or rank, every bishop
      square lies on one of its diagonals, and a queen reaches both. */
  lemma MoveTilesSlider(p: Piece, castle: Castle, t: Square)
    requires Slides(p.kind)
    ensures t in MoveTiles(p, castle) <==> SlideReach(p.kind, p.pos, t)
  {
    SweepMember(p.kind, p.pos, 16, t);
    var df, dr := t.file - p.pos.file, t.rank - p.pos.rank;
    if SlideReach(p.kind, p.pos, t) {
      var i := if df == 0 then dr else df;
      assert t in SlideStep(p.kind, p.pos, i);
    }
  }

  /** Entry `k` of a sweep is entry `k % Width` of the step for offset `k / Width - 8`:
      the list is the offsets' patterns concatenated in order. */
  lemma {:induction false} SweepAt(kind: PieceType, at: Square, n: nat, k: nat)
    requires Slides(kind) && k < n * Width(kind)
    ensures Sweep(kind, at, n)[k] == SlideStep(kind, at, k / Width(kind) - 8)[k % Width(kind)]
  {
    var w := Width(kind);
    if k < (n - 1) * w {
      SweepAt(kind, at, n - 1, k);
    } else {
      assert (n - 1) * w <= k < n * w;
      if w == 4 {
        DivModSlot4(k, n - 1);
      } else {
        DivModSlot2(k, n - 1);
      }
    }
  }

  lemma DivModSlot4(k: int, q: nat)
    requires q * 4 <= k < q * 4 + 4
    ensures k / 4 == q && k % 4 == k - q * 4
  {
  }

  lemma DivModSlot2(k: int, q: nat)
    requires q * 2 <= k < q * 2 + 2
    ensures k / 2 == q && k % 2 == k - q * 2
  {
  }

  /** The queen's list has 64 entries, four per offset, in the order diagonal,
      anti-diagonal, file, rank; the rook's and the bishop's have 32; each holds
      the piece's own square and squares off the board. */
  lemma SliderListShape(p: Piece, castle: Castle)
    requires Slides(p.kind)
    ensures |MoveTiles(p, castle)| == if p.kind == Queen then 64 else 32
    ensures p.pos in MoveTiles(p, castle)
    ensures Square(p.pos.file - 8, p.pos.rank - (if p.kind == Rook then 0 else 8)) in MoveTiles(p, castle)
    ensures p.kind == Queen ==> forall k :: 0 <= k < 64 ==>
      MoveTiles(p, castle)[k] == SlideStep(Queen, p.pos, k / 4 - 8)[k % 4]
  {
    MoveTilesSlider(p, castle, p.pos);
    MoveTilesSlider(p, castle, Square(p.pos.file - 8, p.pos.rank - (if p.kind == Rook then 0 else 8)));
    if p.kind == Queen {
      forall k | 0 <= k < 64
        ensures MoveTiles(p, castle)[k] == SlideStep(Queen, p.pos, k / 4 - 8)[k % 4]
      {
        SweepAt(Queen, p.pos, 16, k);
      }
    }
  }

  /** A pawn moves one square forward along its file, or two from rank 1 (White)
      or rank 6 (Black). */
  lemma PawnMoves(p: Piece, castle: Castle, t: Square)
    requires p.kind == Pawn
    ensures t in MoveTiles(p, castle) <==>
      t.file == p.pos.file &&
      (t.rank == p.pos.rank + Forward(p.colour) ||
       (p.pos.rank == (if p.colour == White then 1 else 6) && t.rank == p.pos.rank + 2 * Forward(p.colour)))
  {
  }

  /** Without castling a king reaches exactly its eight neighbours, never its own
      square; with a castle marker only file 6 (short) or file 2 (long) on the
      rook's rank, wherever the king stands. */
  lemma KingMoves(p: Piece, castle: Castle, t: Square)
    requires p.kind == King
    ensures castle == Castle.No ==> |MoveTiles(p, castle)| == 8 && p.pos !in MoveTiles(p, castle)
    ensures castle == Castle.No ==> (t in MoveTiles(p, castle) <==>
      t != p.pos && -1 <= t.file - p.pos.file <= 1 && -1 <= t.rank - p.pos.rank <= 1)
    ensures castle.Short? ==> MoveTiles(p, castle) == [Square(6, castle.rook.rank)]
    ensures castle.Long? ==> MoveTiles(p, castle) == [Square(2, castle.rook.rank)]
  {
  }

  /** A knight reaches exactly the eight squares a (1, 2) or (2, 1) jump away. */
  lemma KnightMoves(p: Piece, castle: Castle, t: Square)
    requires p.kind == Knight
    ensures |MoveTiles(p, castle)| == 8
    ensures t in MoveTiles(p, castle) <==>
      var df, dr := t.file - p.pos.file, t.rank - p.pos.rank;
      ((df == 1 || df == -1) && (dr == 2 || dr == -2)) || ((df == 2 || df == -2) && (dr == 1 || dr == -1))
  {
  }

  /** A pawn captures exactly on the two squares diagonally forward; every other
      kind captures exactly where it moves, under the same castle marker. */
  lemma CaptureMoves(p: Piece, castle: Castle, t: Square)
    ensures p.kind == Pawn ==> (t in CaptureTiles(p, castle) <==>
      (t.file - p.pos.file == 1 || t.file - p.pos.file == -1) && t.rank == p.pos.rank + Forward(p.colour))
    ensures p.kind != Pawn ==> CaptureTiles(p, castle) == MoveTiles(p, castle)
  {
  }
}
