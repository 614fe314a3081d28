/** Resolving, executing and replaying moves (src/main.rs). */
module Game {
  import opened Wrappers
  import opened Types
  import opened Pieces
  import opened Boards
  import opened Turns

  // ---------------------------------------------------------------------------
  // Which piece moves.

  /** The piece has the move's kind and colour. */
  predicate SameType(p: Piece, mv: Move)
  {
    p.kind == mv.kind && p.colour == mv.colour
  }

  /** The squares the move is checked against: capture tiles for a capture,
      move tiles otherwise. */
  function Reach(p: Piece, mv: Move): seq<Square>
  {
    if mv.capture == Capture.Yes then CaptureTiles(p, mv.castle) else MoveTiles(p, mv.castle)
  }

  /** The piece stands on the named source file, when one is named. */
  predicate FromMatches(p: Piece, mv: Move)
  {
    mv.from.Some? ==> p.pos.file == mv.from.value
  }

  /** The squares strictly between two squares, as the Rust code computes them, are all empty. */
  predicate Unblocked(b: Board, from: Square, to: Square)
  {
    TilesBetween(from, to).Some? && forall t :: t in TilesBetween(from, to).value ==> !Occupied(b, t)
  }

  /** The piece passes all four filters: same kind and colour, destination in
      reach, on the named file, and for a sliding kind nothing in between. */
  predicate Eligible(b: Board, mv: Move, p: Piece)
  {
    && SameType(p, mv)
    && mv.to.Some?
    && mv.to.value in Reach(p, mv)
    && FromMatches(p, mv)
    && (Slides(p.kind) ==> Unblocked(b, p.pos, mv.to.value))
  }

  /** Filtering this piece panics: it reaches `mv.to.unwrap()` on a move with no
      destination, or `get_tiles_between(..).unwrap()` on squares off a line. */
  predicate Panics(b: Board, mv: Move, p: Piece)
  {
    SameType(p, mv) &&
    (mv.to.None? ||
     (mv.to.value in Reach(p, mv) && FromMatches(p, mv) && Slides(p.kind) && TilesBetween(p.pos, mv.to.value).None?))
  }

  /** The lazy filter chain over `pieces`, one piece at a time through all four
      filters; the first panic ends it. */
  function Sieve(b: Board, mv: Move, ps: seq<Piece>): Result<seq<Piece>>
  {
    if |ps| == 0 then Ok([])
    else
      var p := ps[0];
      if !SameType(p, mv) then Sieve(b, mv, ps[1..])
      else if mv.to.None? then Fail(MissingDestination)
      else if mv.to.value !in Reach(p, mv) || !FromMatches(p, mv) then Sieve(b, mv, ps[1..])
      else
        var blocked :- CheckForCollisions(b, p.pos, mv.to.value, mv.kind);
        var rest :- Sieve(b, mv, ps[1..]);
        if blocked then Ok(rest) else Ok([p] + rest)
  }

  /** The eligible pieces of `ps`, in order. */
  function Candidates(b: Board, mv: Move, ps: seq<Piece>): seq<Piece>
  {
    if |ps| == 0 then []
    else (if Eligible(b, mv, ps[0]) then [ps[0]] else []) + Candidates(b, mv, ps[1..])
  }

  /** The filter chain panics exactly when some piece panics, and otherwise
      collects exactly the eligible pieces, in order. */
  lemma {:induction false} SieveSpec(b: Board, mv: Move, ps: seq<Piece>)
    ensures Sieve(b, mv, ps).Fail? <==> exists k :: 0 <= k < |ps| && Panics(b, mv, ps[k])
    ensures Sieve(b, mv, ps).Ok? ==> Sieve(b, mv, ps).value == Candidates(b, mv, ps)
  {
    if |ps| > 0 {
      SieveSpec(b, mv, ps[1..]);
      assert forall k :: 1 <= k < |ps| ==> ps[k] == ps[1..][k - 1];
      var p := ps[0];
      if SameType(p, mv) && mv.to.Some? && mv.to.value in Reach(p, mv) && FromMatches(p, mv) && Slides(p.kind) {
        var r := CheckForCollisions(b, p.pos, mv.to.value, mv.kind);
        if r.Ok? {
          assert r.value <==> !Unblocked(b, p.pos, mv.to.value);
        }
      }
    }
  }

  /** `p` is among the candidates exactly when it is an eligible piece of `ps`. */
  lemma {:induction false} CandidatesMember(b: Board, mv: Move, ps: seq<Piece>, p: Piece)
    ensures p in Candidates(b, mv, ps) <==> p in ps && Eligible(b, mv, p)
  {
    if |ps| > 0 {
      CandidatesMember(b, mv, ps[1..], p);
      assert p in ps <==> p == ps[0] || p in ps[1..];
    }
  }

  /** Two eligible positions make at least two candidates. */
  lemma {:induction false} CandidatesTwo(b: Board, mv: Move, ps: seq<Piece>, j: nat, k: nat)
    requires j < k < |ps| && Eligible(b, mv, ps[j]) && Eligible(b, mv, ps[k])
    ensures |Candidates(b, mv, ps)| >= 2
  {
    if j == 0 {
      CandidatesMember(b, mv, ps[1..], ps[k]);
      assert ps[k] == ps[1..][k - 1];
    } else {
      CandidatesTwo(b, mv, ps[1..], j - 1, k - 1);
    }
  }

  /** With exactly one eligible position, the candidates are that piece alone. */
  lemma {:induction false} CandidatesSingle(b: Board, mv: Move, ps: seq<Piece>, i: nat)
    requires i < |ps| && Eligible(b, mv, ps[i])
    requires forall j :: 0 <= j < |ps| && j != i ==> !Eligible(b, mv, ps[j])
    ensures Candidates(b, mv, ps) == [ps[i]]
  {
    if i == 0 {
      assert forall j :: 0 <= j < |ps[1..]| ==> ps[1..][j] == ps[j + 1];
      CandidatesNone(b, mv, ps[1..]);
    } else {
      assert !Eligible(b, mv, ps[0]);
      assert forall j :: 0 <= j < |ps[1..]| ==> ps[1..][j] == ps[j + 1];
      CandidatesSingle(b, mv, ps[1..], i - 1);
    }
  }

  lemma {:induction false} CandidatesNone(b: Board, mv: Move, ps: seq<Piece>)
    requires forall j :: 0 <= j < |ps| ==> !Eligible(b, mv, ps[j])
    ensures Candidates(b, mv, ps) == []
  {
    if |ps| > 0 {
      assert forall j :: 0 <= j < |ps[1..]| ==> ps[1..][j] == ps[j + 1];
      CandidatesNone(b, mv, ps[1..]);
    }
  }

  /** `find_moved_piece`: the index of the single candidate, looked up again by
      equality; any other number of candidates panics. */
  function FindMovedPiece(b: Board, mv: Move): (r: Result<nat>)
    ensures r.Ok? ==> r.value < |b.pieces| && Eligible(b, mv, b.pieces[r.value])
  {
    var candidates :- Sieve(b, mv, b.pieces);
    if |candidates| != 1 then Fail(CandidateCount(|candidates|))
    else
      SieveSpec(b, mv, b.pieces);
      CandidatesMember(b, mv, b.pieces, candidates[0]);
      Ok(IndexOf(b.pieces, candidates[0]))
  }

  /** Piece `i` is eligible and no other piece is. */
  predicate OnlyEligible(b: Board, mv: Move, i: nat)
  {
    && i < |b.pieces|
    && Eligible(b, mv, b.pieces[i])
    && forall j :: 0 <= j < |b.pieces| && j != i ==> !Eligible(b, mv, b.pieces[j])
  }

  /** A sliding piece that reaches a square along its lines never makes
      `get_tiles_between` fail: the panic in the obstruction test is unreachable. */
  lemma SlideReachIsALine(kind: PieceType, from: Square, to: Square)
    requires SlideReach(kind, from, to)
    ensures TilesBetween(from, to).Some?
  {
    TilesBetweenCases(from, to);
  }

  /** With a destination, filtering never panics. */
  lemma NoPanicWithDestination(b: Board, mv: Move, p: Piece)
    requires mv.to.Some?
    ensures !Panics(b, mv, p)
  {
    if SameType(p, mv) && mv.to.value in Reach(p, mv) && Slides(p.kind) {
      if mv.capture == Capture.Yes {
        CaptureMoves(p, mv.castle, mv.to.value);
      }
      MoveTilesSlider(p, mv.castle, mv.to.value);
      SlideReachIsALine(p.kind, p.pos, mv.to.value);
    }
  }

  /** `find_moved_piece` on a move with a destination returns `i` exactly when
      piece `i` is the one eligible piece, and otherwise panics on the count. */
  lemma FindMovedPieceSpec(b: Board, mv: Move)
    requires mv.to.Some?
    ensures var r := FindMovedPiece(b, mv);
      && (r.Ok? <==> exists i :: OnlyEligible(b, mv, i))
      && (r.Ok? ==> OnlyEligible(b, mv, r.value))
      && (r.Fail? ==> r.failure.CandidateCount? && r.failure.count != 1)
  {
    var ps := b.pieces;
    forall k | 0 <= k < |ps|
      ensures !Panics(b, mv, ps[k])
    {
      NoPanicWithDestination(b, mv, ps[k]);
    }
    SieveSpec(b, mv, ps);
    var cands := Candidates(b, mv, ps);
    var r := FindMovedPiece(b, mv);
    if |cands| == 1 {
      CandidatesMember(b, mv, ps, cands[0]);
      assert r.Ok?;
      var i := r.value;
      assert ps[i] == cands[0];
      forall j | 0 <= j < |ps| && j != i
        ensures !Eligible(b, mv, ps[j])
      {
        if Eligible(b, mv, ps[j]) {
          if j < i {
            CandidatesTwo(b, mv, ps, j, i);
          } else {
            CandidatesTwo(b, mv, ps, i, j);
          }
        }
      }
      assert OnlyEligible(b, mv, i);
    } else {
      forall i | OnlyEligible(b, mv, i)
        ensures false
      {
        CandidatesSingle(b, mv, ps, i);
      }
    }
  }

  /** `find_moved_piece` on a move with no destination panics on the unwrap when
      some piece has the move's kind and colour, and on the count otherwise. */
  lemma FindMovedPieceNoDestination(b: Board, mv: Move)
    requires mv.to.None?
    ensures FindMovedPiece(b, mv) ==
      if exists k :: 0 <= k < |b.pieces| && SameType(b.pieces[k], mv) then Fail(MissingDestination)
      else Fail(CandidateCount(0))
  {
    SieveNoDestination(b, mv, b.pieces);
  }

  lemma {:induction false} SieveNoDestination(b: Board, mv: Move, ps: seq<Piece>)
    requires mv.to.None?
    ensures Sieve(b, mv, ps) ==
      if exists k :: 0 <= k < |ps| && SameType(ps[k], mv) then Fail(MissingDestination) else Ok([])
  {
    if |ps| > 0 {
      SieveNoDestination(b, mv, ps[1..]);
      assert forall k :: 1 <= k < |ps| ==> ps[k] == ps[1..][k - 1];
    }
  }

  // ---------------------------------------------------------------------------
  // Moving pieces.

  /** The pieces without entry `i`. */
  function RemoveAt(b: Board, i: nat): (r: Board)
    requires i < |b.pieces|
    ensures |r.pieces| == |b.pieces| - 1
    ensures forall j :: 0 <= j < i ==> r.pieces[j] == b.pieces[j]
    ensures forall j :: i <= j < |r.pieces| ==> r.pieces[j] == b.pieces[j + 1]
    ensures multiset(r.pieces) == multiset(b.pieces) - multiset{b.pieces[i]}
  {
    assert b.pieces == b.pieces[..i] + [b.pieces[i]] + b.pieces[i + 1..];
    Board(b.pieces[..i] + b.pieces[i + 1..])
  }

  /** `execute_move` as a value: entry `i` taken out, moved to `to`, appended. */
  function Relocate(b: Board, i: nat, to: Square): (r: Board)
    requires i < |b.pieces|
    ensures |r.pieces| == |b.pieces|
    ensures forall j :: 0 <= j < i ==> r.pieces[j] == b.pieces[j]
    ensures forall j :: i <= j < |r.pieces| - 1 ==> r.pieces[j] == b.pieces[j + 1]
    ensures r.pieces[|r.pieces| - 1] == Piece(to, b.pieces[i].kind, b.pieces[i].colour)
    ensures multiset(r.pieces) == multiset(b.pieces) - multiset{b.pieces[i]} + multiset{Piece(to, b.pieces[i].kind, b.pieces[i].colour)}
  {
    Board(RemoveAt(b, i).pieces + [b.pieces[i].(pos := to)])
  }

  /** `execute_move`: remove entry `index`, set its position, push it back. */
  method ExecuteMove(board: Board, index: nat, to: Square) returns (r: Board)
    requires index < |board.pieces|
    ensures r == Relocate(board, index, to)
  {
    var pieces := board.pieces;
    var moved := pieces[index];
    pieces := pieces[..index] + pieces[index + 1..];
    moved := moved.(pos := to);
    pieces := pieces + [moved];
    r := Board(pieces);
  }

  /** The castling step of `make_a_move`: the piece on the payload square goes to
      file 5 (short) or 3 (long) on the same rank; an empty payload square panics. */
  function RookStep(b: Board, castle: Castle): (r: Result<Board>)
    ensures castle == Castle.No ==> r == Ok(b)
    ensures castle != Castle.No ==> (r.Fail? <==> !Occupied(b, castle.rook))
  {
    match castle
    case No => Ok(b)
    case Short(pos) =>
      (match FindPieceByPos(b, pos.file, pos.rank)
       case None => Fail(MissingCastlingRook)
       case Some(i) => Ok(Relocate(b, i, Square(5, pos.rank))))
    case Long(pos) =>
      match FindPieceByPos(b, pos.file, pos.rank)
      case None => Fail(MissingCastlingRook)
      case Some(i) => Ok(Relocate(b, i, Square(3, pos.rank)))
  }

  /** A castle with a piece on the rook's square moves that piece (the first
      one there) to file 5 for a short castle or file 3 for a long one, on the
      same rank, keeping its kind and colour; the other pieces keep their order. */
  lemma RookStepMoves(b: Board, castle: Castle)
    requires castle != Castle.No && Occupied(b, castle.rook)
    ensures var i := FindPieceByPos(b, castle.rook.file, castle.rook.rank).value;
      var r := RookStep(b, castle);
      && r.Ok?
      && |r.value.pieces| == |b.pieces|
      && r.value.pieces[|r.value.pieces| - 1] ==
           Piece(Square(if castle.Short? then 5 else 3, castle.rook.rank), b.pieces[i].kind, b.pieces[i].colour)
      && b.pieces[i].pos == castle.rook
      && r.value.pieces[..|r.value.pieces| - 1] == b.pieces[..i] + b.pieces[i + 1..]
  {
    var i := FindPieceByPos(b, castle.rook.file, castle.rook.rank).value;
    var r := RookStep(b, castle).value;
    assert r.pieces[..|r.pieces| - 1] == RemoveAt(b, i).pieces;
  }

  /** Taking off the first piece on `t`, if any. */
  function ClearSquare(b: Board, t: Square): (r: Board)
    ensures !Occupied(b, t) ==> r == b
  {
    match FindPieceByPos(b, t.file, t.rank)
    case None => b
    case Some(i) => RemoveAt(b, i)
  }

  /** One move of `make_a_move`: the rook step, the capture, then the mover. */
  function ApplyMove(b: Board, mv: Move): Result<Board>
  {
    var afterRook :- RookStep(b, mv.castle);
    if mv.to.None? then Fail(MissingDestination)
    else
      var to := mv.to.value;
      var cleared := ClearSquare(afterRook, to);
      var i :- FindMovedPiece(cleared, mv);
      Ok(Relocate(cleared, i, to))
  }

  /** The moves applied one after the other; the first failure ends it. */
  function ApplyMoves(b: Board, mvs: seq<Move>): Result<Board>
    decreases |mvs|
  {
    if |mvs| == 0 then Ok(b)
    else
      var next :- ApplyMove(b, mvs[0]);
      ApplyMoves(next, mvs[1..])
  }

  /** `make_a_move`: White's move, then Black's. */
  function ApplyTurn(b: Board, t: Turn): Result<Board>
  {
    ApplyMoves(b, [t.white, t.black])
  }

  /** One pass of `make_a_move`'s loop body: move the castling rook, take off the
      piece on the destination in place, then resolve and move the mover. */
  method MoveOnce(board: Board, mv: Move) returns (r: Result<Board>)
    ensures r == ApplyMove(board, mv)
  {
    var current := board;
    match mv.castle {
      case No =>
      case Short(pos) =>
        var found := FindPieceByPos(current, pos.file, pos.rank);
        if found.None? {
          return Fail(MissingCastlingRook);
        }
        current := ExecuteMove(current, found.value, Square(5, pos.rank));
      case Long(pos) =>
        var found := FindPieceByPos(current, pos.file, pos.rank);
        if found.None? {
          return Fail(MissingCastlingRook);
        }
        current := ExecuteMove(current, found.value, Square(3, pos.rank));
    }
    assert RookStep(board, mv.castle) == Ok(current);
    if mv.to.None? {
      return Fail(MissingDestination);
    }
    var to := mv.to.value;
    var captured := FindPieceByPos(current, to.file, to.rank);
    if captured.Some? {
      var i := captured.value;
      current := Board(current.pieces[..i] + current.pieces[i + 1..]);
    }
    assert current == ClearSquare(RookStep(board, mv.castle).value, to);
    var moved := FindMovedPiece(current, mv);
    if moved.Fail? {
      return Fail(moved.failure);
    }
    current := ExecuteMove(current, moved.value, to);
    r := Ok(current);
  }

  /** `make_a_move` as the Rust code runs it: a loop over the turn's two moves,
      White's first, that reassigns the board after each. */
  method MakeAMove(board: Board, turn: Turn) returns (r: Result<Board>)
    ensures r == ApplyTurn(board, turn)
  {
    var moves := [turn.white, turn.black];
    var current := board;
    for k := 0 to 2
      invariant ApplyMoves(board, moves) == ApplyMoves(current, moves[k..])
    {
      assert moves[k..][0] == moves[k] && moves[k..][1..] == moves[k + 1..];
      var next := MoveOnce(current, moves[k]);
      if next.Fail? {
        return next;
      }
      current := next.value;
    }
    r := Ok(current);
  }

  // ---------------------------------------------------------------------------
  // Replay.

  /** The turns applied in order from a board; the first failure ends it. */
  function Fold(b: Board, turns: seq<Turn>): Result<Board>
    decreases |turns|
  {
    if |turns| == 0 then Ok(b)
    else
      var next :- ApplyTurn(b, turns[0]);
      Fold(next, turns[1..])
  }

  /** The replay of `main`: the first `limit` turns (all of them when there are
      fewer) folded over the initial board. */
  function Replay(initial: Board, turns: seq<Turn>, limit: nat): Result<Board>
  {
    Fold(initial, turns[..if limit < |turns| then limit else |turns|])
  }

  /** A turn line replayed on its own is the turn applied. */
  lemma FoldOne(b: Board, t: Turn)
    ensures Fold(b, [t]) == ApplyTurn(b, t)
  {
    assert [t][1..] == [];
  }

  /** Folding two runs of turns is folding the first, then the second from where it ended. */
  lemma {:induction false} FoldAppend(b: Board, ts: seq<Turn>, us: seq<Turn>)
    ensures Fold(b, ts + us) ==
      match Fold(b, ts)
      case Fail(e) => Fail(e)
      case Ok(m) => Fold(m, us)
    decreases |ts|
  {
    if |ts| == 0 {
      assert ts + us == us;
    } else {
      assert (ts + us)[0] == ts[0] && (ts + us)[1..] == ts[1..] + us;
      match ApplyTurn(b, ts[0])
      case Fail(_) =>
      case Ok(next) => FoldAppend(next, ts[1..], us);
    }
  }

  /** Replay with no turns to take gives the initial board back; a limit at
      least the number of turns replays them all. */
  lemma ReplayBounds(initial: Board, turns: seq<Turn>, limit: nat)
    ensures limit == 0 || |turns| == 0 ==> Replay(initial, turns, limit) == Ok(initial)
    ensures limit >= |turns| ==> Replay(initial, turns, limit) == Fold(initial, turns)
  {
    assert turns[..|turns|] == turns;
  }

  /** Raising the limit by one applies one more turn to the previous result. */
  lemma ReplayStep(initial: Board, turns: seq<Turn>, k: nat)
    requires k < |turns|
    ensures Replay(initial, turns, k + 1) ==
      match Replay(initial, turns, k)
      case Fail(e) => Fail(e)
      case Ok(m) => ApplyTurn(m, turns[k])
  {
    assert turns[..k + 1] == turns[..k] + [turns[k]];
    FoldAppend(initial, turns[..k], [turns[k]]);
    match Fold(initial, turns[..k])
    case Fail(_) =>
    case Ok(m) => FoldOne(m, turns[k]);
  }

  // ---------------------------------------------------------------------------
  // What a move does to the board.

  /** No two pieces share a square. */
  predicate OnePerSquare(b: Board)
  {
    forall i, j :: 0 <= i < j < |b.pieces| ==> b.pieces[i].pos != b.pieces[j].pos
  }

  /** Clearing a square removes one piece exactly when it was occupied. */
  lemma ClearSquareCount(b: Board, t: Square)
    ensures |ClearSquare(b, t).pieces| == |b.pieces| - (if Occupied(b, t) then 1 else 0)
  {
  }

  /** On a board with one piece per square, clearing a square keeps that and
      leaves the square empty. */
  lemma ClearSquareEmpties(b: Board, t: Square)
    requires OnePerSquare(b)
    ensures OnePerSquare(ClearSquare(b, t)) && !Occupied(ClearSquare(b, t), t)
  {
    var c := ClearSquare(b, t);
    match FindPieceByPos(b, t.file, t.rank)
    case None =>
    case Some(i) =>
      forall j | 0 <= j < |c.pieces|
        ensures c.pieces[j].pos != t
      {
        if j < i {
          assert c.pieces[j] == b.pieces[j];
        } else {
          assert c.pieces[j] == b.pieces[j + 1];
        }
      }
      forall j, k | 0 <= j < k < |c.pieces|
        ensures c.pieces[j].pos != c.pieces[k].pos
      {
        var j', k' := if j < i then j else j + 1, if k < i then k else k + 1;
        assert c.pieces[j] == b.pieces[j'] && c.pieces[k] == b.pieces[k'];
      }
  }

  /** Moving a piece onto an empty square keeps one piece per square, and it is
      the only piece there. */
  lemma RelocateToEmpty(b: Board, i: nat, to: Square)
    requires i < |b.pieces| && OnePerSquare(b) && !Occupied(b, to)
    ensures var r := Relocate(b, i, to);
      OnePerSquare(r) && forall j :: 0 <= j < |r.pieces| - 1 ==> r.pieces[j].pos != to
  {
    var r := Relocate(b, i, to);
    var n := |r.pieces|;
    forall j | 0 <= j < n - 1
      ensures r.pieces[j].pos != to
    {
      if j < i {
        assert r.pieces[j] == b.pieces[j];
      } else {
        assert r.pieces[j] == b.pieces[j + 1];
      }
    }
    forall j, k | 0 <= j < k < n
      ensures r.pieces[j].pos != r.pieces[k].pos
    {
      if k < n - 1 {
        var j', k' := if j < i then j else j + 1, if k < i then k else k + 1;
        assert r.pieces[j] == b.pieces[j'] && r.pieces[k] == b.pieces[k'];
      }
    }
  }

  /** A move keeps the piece count, less one exactly when its destination was
      occupied once the castling rook had moved. */
  lemma ApplyMoveCount(b: Board, mv: Move)
    ensures ApplyMove(b, mv).Ok? ==>
      RookStep(b, mv.castle).Ok? && mv.to.Some? &&
      |ApplyMove(b, mv).value.pieces| ==
        |b.pieces| - (if Occupied(RookStep(b, mv.castle).value, mv.to.value) then 1 else 0)
  {
    if ApplyMove(b, mv).Ok? {
      var afterRook := RookStep(b, mv.castle).value;
      var cleared := ClearSquare(afterRook, mv.to.value);
      ClearSquareCount(afterRook, mv.to.value);
      RookStepCount(b, mv.castle);
      var i := FindMovedPiece(cleared, mv).value;
      assert ApplyMove(b, mv).value == Relocate(cleared, i, mv.to.value);
    }
  }

  /** After a move, the mover stands last on its destination with its kind and
      colour; when the board after the rook step held one piece per square, so
      does the result, and the mover is the only piece on the destination. */
  lemma ApplyMoveMover(b: Board, mv: Move)
    ensures ApplyMove(b, mv).Ok? ==>
      var r := ApplyMove(b, mv).value;
      && |r.pieces| > 0
      && r.pieces[|r.pieces| - 1] == Piece(mv.to.value, mv.kind, mv.colour)
      && (OnePerSquare(RookStep(b, mv.castle).value) ==>
            OnePerSquare(r) && forall j :: 0 <= j < |r.pieces| - 1 ==> r.pieces[j].pos != mv.to.value)
  {
    if ApplyMove(b, mv).Ok? {
      var a := RookStep(b, mv.castle).value;
      var to := mv.to.value;
      var c := ClearSquare(a, to);
      FindMovedPieceSpec(c, mv);
      var i := FindMovedPiece(c, mv).value;
      assert ApplyMove(b, mv).value == Relocate(c, i, to);
      if OnePerSquare(a) {
        ClearSquareEmpties(a, to);
        RelocateToEmpty(c, i, to);
      }
    }
  }

  /** `make_a_move` plays White's move, then Black's on the board it left; a
      failure of White's move ends the turn. */
  lemma ApplyTurnInOrder(b: Board, t: Turn)
    ensures ApplyTurn(b, t) ==
      match ApplyMove(b, t.white)
      case Fail(e) => Fail(e)
      case Ok(m) => ApplyMove(m, t.black)
  {
    assert [t.white, t.black][1..] == [t.black];
    match ApplyMove(b, t.white)
    case Fail(_) =>
    case Ok(m) =>
      assert ApplyMoves(m, [t.black]) == ApplyMove(m, t.black) by {
        assert [t.black][1..] == [];
      }
  }

  /** A turn removes at most two pieces and never adds one. */
  lemma ApplyTurnCount(b: Board, t: Turn)
    ensures ApplyTurn(b, t).Ok? ==>
      |b.pieces| - 2 <= |ApplyTurn(b, t).value.pieces| <= |b.pieces|
  {
    match ApplyMove(b, t.white)
    case Fail(_) =>
    case Ok(m) =>
      ApplyMoveCount(b, t.white);
      RookStepCount(b, t.white.castle);
      assert [t.white, t.black][1..] == [t.black];
      ApplyMoveCount(m, t.black);
      RookStepCount(m, t.black.castle);
      assert ApplyMoves(m, [t.black]) == ApplyMove(m, t.black) by {
        assert [t.black][1..] == [];
      }
  }

  lemma RookStepCount(b: Board, castle: Castle)
    ensures RookStep(b, castle).Ok? ==> |RookStep(b, castle).value.pieces| == |b.pieces|
  {
  }

  /** A replay of `n` turns removes at most two pieces per turn and never adds one. */
  lemma {:induction false} FoldCount(b: Board, turns: seq<Turn>)
    ensures Fold(b, turns).Ok? ==>
      |b.pieces| - 2 * |turns| <= |Fold(b, turns).value.pieces| <= |b.pieces|
    decreases |turns|
  {
    if |turns| > 0 {
      match ApplyTurn(b, turns[0])
      case Fail(_) =>
      case Ok(next) =>
        ApplyTurnCount(b, turns[0]);
        FoldCount(next, turns[1..]);
    }
  }

  /** A non-castling move to an empty square captures nothing: it only moves
      the resolved piece there. */
  lemma ApplyQuietMove(b: Board, mv: Move, i: nat)
    requires mv.castle == Castle.No && mv.to.Some? && !Occupied(b, mv.to.value)
    requires FindMovedPiece(b, mv) == Ok(i) && i < |b.pieces|
    ensures ApplyMove(b, mv) == Ok(Relocate(b, i, mv.to.value))
  {
    assert ClearSquare(b, mv.to.value) == b;
  }

  // ---------------------------------------------------------------------------
  // Worked examples from the initial position.

  /** White "e4" from the initial position moves piece 24, the pawn on (4, 1). */
  lemma ResolutionE4()
    ensures FindMovedPiece(InitialBoard(), Move(Pawn, White, Castle.No, Capture.No, Promotion.No, Check.No, None, Some(Square(4, 3)))) == Ok(24)
  {
    var b := InitialBoard();
    var e4 := Move(Pawn, White, Castle.No, Capture.No, Promotion.No, Check.No, None, Some(Square(4, 3)));
    forall j | 0 <= j < 32 && j != 24
      ensures !Eligible(b, e4, b.pieces[j])
    {
      assert b.pieces[j] == HomePiece(j);
      if SameType(b.pieces[j], e4) {
        assert j >= 16 && j % 2 == 0;
      }
    }
    assert b.pieces[24] == HomePiece(24) == Piece(Square(4, 1), Pawn, White);
    assert Square(4, 3) in MoveTiles(b.pieces[24], Castle.No);
    assert OnlyEligible(b, e4, 24);
    FindMovedPieceSpec(b, e4);
  }

  /** Black "g6" from the initial position moves piece 29, the pawn on (6, 6). */
  lemma ResolutionG6()
    ensures FindMovedPiece(InitialBoard(), Move(Pawn, Black, Castle.No, Capture.No, Promotion.No, Check.No, None, Some(Square(6, 5)))) == Ok(29)
  {
    var b := InitialBoard();
    var g6 := Move(Pawn, Black, Castle.No, Capture.No, Promotion.No, Check.No, None, Some(Square(6, 5)));
    forall j | 0 <= j < 32 && j != 29
      ensures !Eligible(b, g6, b.pieces[j])
    {
      assert b.pieces[j] == HomePiece(j);
      if SameType(b.pieces[j], g6) {
        assert j >= 16 && j % 2 == 1;
      }
    }
    assert b.pieces[29] == HomePiece(29) == Piece(Square(6, 6), Pawn, Black);
    assert Square(6, 5) in MoveTiles(b.pieces[29], Castle.No);
    assert OnlyEligible(b, g6, 29);
    FindMovedPieceSpec(b, g6);
  }

  /** White "Nc3" from the initial position moves piece 4, the knight on (1, 0). */
  lemma ResolutionNc3()
    ensures FindMovedPiece(InitialBoard(), Move(Knight, White, Castle.No, Capture.No, Promotion.No, Check.No, None, Some(Square(2, 2)))) == Ok(4)
  {
    var b := InitialBoard();
    var nc3 := Move(Knight, White, Castle.No, Capture.No, Promotion.No, Check.No, None, Some(Square(2, 2)));
    forall j | 0 <= j < 32 && j != 4
      ensures !Eligible(b, nc3, b.pieces[j])
    {
      assert b.pieces[j] == HomePiece(j);
      if SameType(b.pieces[j], nc3) {
        assert j == 5;
      }
    }
    assert b.pieces[4] == HomePiece(4) == Piece(Square(1, 0), Knight, White);
    assert Square(2, 2) in MoveTiles(b.pieces[4], Castle.No);
    assert OnlyEligible(b, nc3, 4);
    FindMovedPieceSpec(b, nc3);
  }

  /** With piece 29 gone, Black "Bg7" moves piece 11, the bishop on (5, 7) whose
      diagonal is now open. */
  lemma ResolutionBg7()
    ensures FindMovedPiece(RemoveAt(InitialBoard(), 29), Move(Bishop, Black, Castle.No, Capture.No, Promotion.No, Check.No, None, Some(Square(6, 6)))) == Ok(11)
  {
    var b := InitialBoard();
    var b' := RemoveAt(b, 29);
    var bg7 := Move(Bishop, Black, Castle.No, Capture.No, Promotion.No, Check.No, None, Some(Square(6, 6)));
    forall j | 0 <= j < 31 && j != 11
      ensures !Eligible(b', bg7, b'.pieces[j])
    {
      if j < 29 {
        assert b'.pieces[j] == b.pieces[j] == HomePiece(j);
      } else {
        assert b'.pieces[j] == b.pieces[j + 1] == HomePiece(j + 1);
      }
      if SameType(b'.pieces[j], bg7) {
        assert j == 10;
        MoveTilesSlider(b'.pieces[j], Castle.No, Square(6, 6));
      }
    }
    assert b'.pieces[11] == HomePiece(11) == Piece(Square(5, 7), Bishop, Black);
    MoveTilesSlider(b'.pieces[11], Castle.No, Square(6, 6));
    TilesBetweenCases(Square(5, 7), Square(6, 6));
    assert TilesBetween(Square(5, 7), Square(6, 6)) == Some([]);
    assert OnlyEligible(b', bg7, 11);
    FindMovedPieceSpec(b', bg7);
  }

  /** `test_find_first`: the four moves parsed from their tokens resolve to 24,
      4 and 29 on the initial board, and to 11 once piece 29 is removed. */
  lemma FindFirstExample()
    ensures ParseMove("e4", 'w').Ok? && FindMovedPiece(InitialBoard(), ParseMove("e4", 'w').value) == Ok(24)
    ensures ParseMove("Nc3", 'w').Ok? && FindMovedPiece(InitialBoard(), ParseMove("Nc3", 'w').value) == Ok(4)
    ensures ParseMove("g6", 'b').Ok? && FindMovedPiece(InitialBoard(), ParseMove("g6", 'b').value) == Ok(29)
    ensures ParseMove("Bg7", 'b').Ok? && FindMovedPiece(RemoveAt(InitialBoard(), 29), ParseMove("Bg7", 'b').value) == Ok(11)
  {
    ParsePawnExamples();
    ParseResolutionExamples();
    ResolutionE4();
    ResolutionNc3();
    ResolutionG6();
    ResolutionBg7();
  }

  /** White's "e4" from the initial position moves piece 24 to (4, 3). */
  lemma OpeningWhiteMove()
    ensures ApplyMove(InitialBoard(), Move(Pawn, White, Castle.No, Capture.No, Promotion.No, Check.No, None, Some(Square(4, 3))))
      == Ok(Relocate(InitialBoard(), 24, Square(4, 3)))
  {
    InitialMiddleEmpty(Square(4, 3));
    ResolutionE4();
    ApplyQuietMove(InitialBoard(), Move(Pawn, White, Castle.No, Capture.No, Promotion.No, Check.No, None, Some(Square(4, 3))), 24);
  }

  /** On that board Black's "g6" resolves to the pawn from (6, 6), now at index 28. */
  lemma OpeningBlackResolution()
    ensures FindMovedPiece(Relocate(InitialBoard(), 24, Square(4, 3)),
                           Move(Pawn, Black, Castle.No, Capture.No, Promotion.No, Check.No, None, Some(Square(6, 5)))) == Ok(28)
  {
    var b := InitialBoard();
    var b1 := Relocate(b, 24, Square(4, 3));
    var g6 := Move(Pawn, Black, Castle.No, Capture.No, Promotion.No, Check.No, None, Some(Square(6, 5)));
    forall j | 0 <= j < 32 && j != 28
      ensures !Eligible(b1, g6, b1.pieces[j])
    {
      if j < 24 {
        assert b1.pieces[j] == b.pieces[j];
      } else if j < 31 {
        assert b1.pieces[j] == b.pieces[j + 1];
      }
      if SameType(b1.pieces[j], g6) {
        assert j >= 16 && j < 31 && (j < 24 ==> j % 2 == 1) && (j >= 24 ==> j % 2 == 0);
      }
    }
    assert b1.pieces[28] == Piece(Square(6, 6), Pawn, Black);
    assert Square(6, 5) in MoveTiles(b1.pieces[28], Castle.No);
    assert OnlyEligible(b1, g6, 28);
    FindMovedPieceSpec(b1, g6);
  }

  /** Black's "g6" then moves that pawn to (6, 5). */
  lemma OpeningBlackMove()
    ensures var b1 := Relocate(InitialBoard(), 24, Square(4, 3));
      ApplyMove(b1, Move(Pawn, Black, Castle.No, Capture.No, Promotion.No, Check.No, None, Some(Square(6, 5))))
      == Ok(Relocate(b1, 28, Square(6, 5)))
  {
    var b1 := Relocate(InitialBoard(), 24, Square(4, 3));
    OpeningBlackEmpty();
    OpeningBlackResolution();
    ApplyQuietMove(b1, Move(Pawn, Black, Castle.No, Capture.No, Promotion.No, Check.No, None, Some(Square(6, 5))), 28);
  }

  /** After "e4", (6, 5) is still empty. */
  lemma OpeningBlackEmpty()
    ensures !Occupied(Relocate(InitialBoard(), 24, Square(4, 3)), Square(6, 5))
  {
    var b := InitialBoard();
    var b1 := Relocate(b, 24, Square(4, 3));
    InitialMiddleEmpty(Square(6, 5));
    forall j | 0 <= j < 32
      ensures b1.pieces[j].pos != Square(6, 5)
    {
      if j < 24 {
        assert b1.pieces[j] == b.pieces[j];
      } else if j < 31 {
        assert b1.pieces[j] == b.pieces[j + 1];
      }
    }
  }

  /** White's "e4" then Black's "g6" from the initial position. */
  lemma OpeningTurn()
    ensures ApplyTurn(InitialBoard(),
                      Turn(Move(Pawn, White, Castle.No, Capture.No, Promotion.No, Check.No, None, Some(Square(4, 3))),
                           Move(Pawn, Black, Castle.No, Capture.No, Promotion.No, Check.No, None, Some(Square(6, 5)))))
      == Ok(Relocate(Relocate(InitialBoard(), 24, Square(4, 3)), 28, Square(6, 5)))
  {
    var e4 := Move(Pawn, White, Castle.No, Capture.No, Promotion.No, Check.No, None, Some(Square(4, 3)));
    var g6 := Move(Pawn, Black, Castle.No, Capture.No, Promotion.No, Check.No, None, Some(Square(6, 5)));
    ApplyTurnInOrder(InitialBoard(), Turn(e4, g6));
    OpeningWhiteMove();
    OpeningBlackMove();
  }

  /** The two pawns the opening turn moves, found by position as the Rust code's
      test finds them: (4, 1) at index 24, then (6, 6) at index 28 once 24 is gone. */
  lemma InitialLookups()
    ensures FindPieceByPos(InitialBoard(), 4, 1) == Some(24)
    ensures FindPieceByPos(RemoveAt(InitialBoard(), 24), 6, 6) == Some(28)
  {
    var ps := InitialBoard().pieces;
    forall j | 0 <= j < 24
      ensures ps[j].pos != Square(4, 1)
    {
      HomeSquare(j);
    }
    HomeSquare(24);
    FirstOnSquare(ps, 24, Square(4, 1));
    SecondPawnLookup();
  }

  /** Once index 24 is gone, the pawn on (6, 6) is the first piece there, at 28. */
  lemma SecondPawnLookup()
    ensures FindPieceByPos(RemoveAt(InitialBoard(), 24), 6, 6) == Some(28)
  {
    var ps := InitialBoard().pieces;
    var qs := RemoveAt(InitialBoard(), 24).pieces;
    forall j | 0 <= j < 28
      ensures qs[j].pos != Square(6, 6)
    {
      if j < 24 {
        HomeSquare(j);
        assert qs[j] == ps[j];
      } else {
        HomeSquare(j + 1);
        assert qs[j] == ps[j + 1];
      }
    }
    HomeSquare(29);
    assert qs[28] == ps[29];
    FirstOnSquare(qs, 28, Square(6, 6));
  }

  /** Index `i` is found for `s` when it is the first piece standing there. */
  lemma FirstOnSquare(ps: seq<Piece>, i: nat, s: Square)
    requires i < |ps| && ps[i].pos == s
    requires forall j :: 0 <= j < i ==> ps[j].pos != s
    ensures FindPieceByPos(Board(ps), s.file, s.rank) == Some(i)
  {
  }

  /** The board after the opening turn, written as the Rust code's test builds it:
      the pawn on (4, 1) taken out at index 24, then the pawn on (6, 6) at index
      28 of what is left, then the two moved pawns appended. */
  lemma OpeningBoard()
    ensures FindPieceByPos(InitialBoard(), 4, 1) == Some(24)
    ensures FindPieceByPos(RemoveAt(InitialBoard(), 24), 6, 6) == Some(28)
    ensures Relocate(Relocate(InitialBoard(), 24, Square(4, 3)), 28, Square(6, 5)) ==
      Board(RemoveAt(RemoveAt(InitialBoard(), 24), 28).pieces +
            [Piece(Square(4, 3), Pawn, White), Piece(Square(6, 5), Pawn, Black)])
  {
    InitialLookups();
    OpeningRelocations();
  }

  /** Moving index 24 and then index 28 is removing both and appending the movers. */
  lemma OpeningRelocations()
    ensures Relocate(Relocate(InitialBoard(), 24, Square(4, 3)), 28, Square(6, 5)) ==
      Board(RemoveAt(RemoveAt(InitialBoard(), 24), 28).pieces +
            [Piece(Square(4, 3), Pawn, White), Piece(Square(6, 5), Pawn, Black)])
  {
    var b := InitialBoard();
    var b1 := Relocate(b, 24, Square(4, 3));
    var wp := Piece(Square(4, 3), Pawn, White);
    var c := RemoveAt(b, 24).pieces;
    assert b1.pieces == c + [wp];
    assert b1.pieces[..28] == c[..28];
    assert b1.pieces[29..] == c[29..] + [wp];
    assert c[28] == b.pieces[29];
  }

  /** The line "e4 g6", parsed and applied to the initial position, gives the
      board `OpeningBoard` describes. */
  lemma OpeningTurnExample()
    ensures ParseTurn("e4 g6").Ok?
    ensures ApplyTurn(InitialBoard(), ParseTurn("e4 g6").value) ==
      Ok(Board(RemoveAt(RemoveAt(InitialBoard(), 24), 28).pieces +
               [Piece(Square(4, 3), Pawn, White), Piece(Square(6, 5), Pawn, Black)]))
  {
    ParseTurnExample();
    OpeningTurn();
    OpeningBoard();
  }
}
