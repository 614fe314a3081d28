/** Move descriptors and turns parsed from notation tokens (src/turn.rs). */
module Turns {
  import opened Wrappers
  import opened Types

  /** One side's move: the mover's kind and colour, the markers read from the
      token, the disambiguating file and the destination. */
  datatype Move = Move(kind: PieceType, colour: Colour, castle: Castle, capture: Capture,
                       promotion: Promotion, check: Check, from: Option<nat>, to: Option<Square>)

  /** A White move and a Black move, in that order. */
  datatype Turn = Turn(white: Move, black: Move)

  const FileLetters: string := "abcdefgh"

  /** `"abcdefgh".find(c)`. */
  function FileIndex(c: char): (r: Option<nat>)
    ensures r.Some? <==> c in FileLetters
    ensures r.Some? ==> r.value < 8 && FileLetters[r.value] == c
  {
    Find(FileLetters, c)
  }

  /** `char::to_digit(10)`. */
  function Digit(c: char): (r: Option<nat>)
    ensures r.Some? <==> '0' <= c <= '9'
    ensures r.Some? ==> r.value <= 9 && r.value == c as int - '0' as int
  {
    if '0' <= c <= '9' then Some(c as int - '0' as int) else None
  }

  /** `remove_ambiguity`: a pawn token longer than the base length (2, or 3 with
      a check marker) names its source file with its first char; a bishop,
      knight or rook token longer than base + 1 with its second char; a king or
      queen never. A char that is not a file letter names no file. */
  function RemoveAmbiguity(m: Move, s: string): Move
  {
    var length := if IsCheckOrMate(m.check) then 3 else 2;
    var from :=
      match m.kind
      case Pawn => if |s| > length then FileIndex(s[0]) else None
      case King | Queen => None
      case _ => if |s| > length + 1 then FileIndex(s[1]) else None;
    m.(from := from)
  }

  /** `get_offset`: where the destination starts in the token — one char for a
      piece letter, one for an `x`, one for a disambiguating file. */
  function GetOffset(m: Move): (r: nat)
    ensures r == (if m.kind == Pawn then 0 else 1)
                 + (if m.capture == Capture.Yes then 1 else 0)
                 + (if m.from.Some? then 1 else 0)
  {
    var offset :=
      match m.capture
      case Yes => if m.from.Some? then 3 else 2
      case No => if m.from.Some? then 2 else 1;
    if m.kind == Pawn then offset - 1 else offset
  }

  /** `format_destination`: a file letter at `offset` and a digit after it give
      the square (file, digit - 1); anything else gives none. */
  function FormatDestination(s: string, offset: nat): (r: Option<Square>)
    ensures r.Some? <==> offset + 1 < |s| && s[offset] in FileLetters && '0' <= s[offset + 1] <= '9'
    ensures r.Some? ==> 0 <= r.value.file < 8 && -1 <= r.value.rank <= 8
    ensures r.Some? ==> FileLetters[r.value.file] == s[offset]
    ensures r.Some? ==> r.value.rank == (s[offset + 1] as int - '0' as int) - 1
  {
    if offset < |s| && FileIndex(s[offset]).Some? && offset + 1 < |s| && Digit(s[offset + 1]).Some? then
      Some(Square(FileIndex(s[offset]).value, Digit(s[offset + 1]).value - 1))
    else
      None
  }

  /** `set_destination`: a castling king goes to file 6 or 2 on the rook's rank
      without reading the text; every other move reads it at the offset. */
  function SetDestination(m: Move, s: string): Move
  {
    var offset := GetOffset(m);
    var to :=
      if m.kind == King then
        match m.castle
        case No => FormatDestination(s, offset)
        case Short(pos) => Some(Square(6, pos.rank))
        case Long(pos) => Some(Square(2, pos.rank))
      else
        FormatDestination(s, offset);
    m.(to := to)
  }

  /** Only the destination changes; a castling king's comes from the rook's
      rank alone, whatever the text, and every other move reads it at the offset. */
  lemma Destination(m: Move, s: string, t: string)
    ensures SetDestination(m, s).(to := m.to) == m
    ensures m.kind == King && m.castle.Short? ==> SetDestination(m, s).to == Some(Square(6, m.castle.rook.rank))
    ensures m.kind == King && m.castle.Long? ==> SetDestination(m, s).to == Some(Square(2, m.castle.rook.rank))
    ensures m.kind == King && m.castle != Castle.No ==> SetDestination(m, s) == SetDestination(m, t)
    ensures m.kind != King || m.castle == Castle.No ==> SetDestination(m, s).to == FormatDestination(s, GetOffset(m))
  {
  }

  /** `Move::new_from_notation`: the field classifiers, then the disambiguating
      file, then the destination. */
  function ParseMove(s: string, code: char): Result<Move>
  {
    var colour :- ColourFromChar(code);
    var kind :- TokenKind(s);
    var castle :- CastleOf(s, colour);
    var m := Move(kind, colour, castle, CaptureOf(s), PromotionOf(s), CheckOf(s), None, None);
    Ok(SetDestination(RemoveAmbiguity(m, s), s))
  }

  /** A parsed move carries exactly what the classifiers read from its token. It
      fails exactly when the token has a misplaced piece letter or is empty. */
  lemma ParseMoveFields(s: string, code: char)
    requires code in "wb"
    ensures ParseMove(s, code).Fail? <==> TokenKind(s).Fail? || |s| == 0
    ensures ParseMove(s, code).Ok? ==>
      var m := ParseMove(s, code).value;
      && m.kind == TokenKind(s).value
      && m.colour == (if code == 'w' then White else Black)
      && m.castle == CastleOf(s, m.colour).value
      && m.capture == CaptureOf(s)
      && m.promotion == PromotionOf(s)
      && m.check == CheckOf(s)
  {
  }

  /** Disambiguation: kings and queens never get a file; a pawn gets one exactly
      when the token is longer than the base length and starts with a file
      letter, and that letter is the file; a bishop, knight or rook exactly when
      it is longer than base + 1 and its second char is a file letter, and that
      letter is the file. */
  lemma Disambiguation(m: Move, s: string)
    ensures var base := if m.check == Check.No then 2 else 3;
      var r := RemoveAmbiguity(m, s);
      && (m.kind == King || m.kind == Queen ==> r.from.None?)
      && (m.kind == Pawn ==> (r.from.Some? <==> |s| > base && s[0] in FileLetters))
      && (m.kind in {Bishop, Knight, Rook} ==> (r.from.Some? <==> |s| > base + 1 && s[1] in FileLetters))
      && (m.kind == Pawn && r.from.Some? ==> r.from.value < 8 && FileLetters[r.from.value] == s[0])
      && (m.kind in {Bishop, Knight, Rook} && r.from.Some? ==> r.from.value < 8 && FileLetters[r.from.value] == s[1])
      && r.(from := m.from) == m
  {
  }

  // ---------------------------------------------------------------------------
  // Writing a descriptor as a token, the inverse of parsing for ordinary moves.

  /** A non-castling, non-promoting move as its notation describes it. */
  datatype Notation = Notation(kind: PieceType, from: Option<nat>, capture: bool, to: Square, check: Check)

  /** The destination is on the board, and only a pawn, bishop, knight or rook
      names a source file. */
  predicate WellFormed(n: Notation)
  {
    && 0 <= n.to.file < 8 && 0 <= n.to.rank < 8
    && (n.from.Some? ==> n.from.value < 8 && n.kind != King && n.kind != Queen)
  }

  const RankDigits: string := "12345678"

  /** The kind's letter; none for a pawn. */
  function KindPrefix(kind: PieceType): string
  {
    match kind
    case Pawn => ""
    case King => "K"
    case Queen => "Q"
    case Bishop => "B"
    case Knight => "N"
    case Rook => "R"
  }

  /** The token for a well-formed notation: letter, source file, 'x', square, marker. */
  function Render(n: Notation): string
    requires WellFormed(n)
  {
    KindPrefix(n.kind)
    + (if n.from.Some? then [FileLetters[n.from.value]] else "")
    + (if n.capture then "x" else "")
    + [FileLetters[n.to.file], RankDigits[n.to.rank]]
    + CheckSuffix(n.check)
  }

  /** The chars a rendered token holds after its piece letter: file letters,
      'x', rank digits and the check markers. */
  predicate Lower(c: char)
  {
    ('a' <= c <= 'h') || c == 'x' || ('1' <= c <= '8') || c == '+' || c == '#'
  }

  /** Where the source file, the 'x' and the square start in a rendered token. */
  function FromAt(n: Notation): nat
  {
    if n.kind == Pawn then 0 else 1
  }

  function CaptureAt(n: Notation): nat
  {
    FromAt(n) + (if n.from.Some? then 1 else 0)
  }

  function SquareAt(n: Notation): nat
  {
    CaptureAt(n) + (if n.capture then 1 else 0)
  }

  lemma FileLetterAt(k: nat)
    requires k < 8
    ensures 'a' <= FileLetters[k] <= 'h'
  {
  }

  lemma RankDigitAt(k: nat)
    requires k < 8
    ensures RankDigits[k] as int == '1' as int + k
  {
  }

  /** Indexing into five concatenated strings. */
  lemma Concat5At(a: string, b: string, c: string, d: string, e: string, i: int)
    requires 0 <= i < |a + b + c + d + e|
    ensures (a + b + c + d + e)[i] ==
      if i < |a| then a[i]
      else if i < |a| + |b| then b[i - |a|]
      else if i < |a| + |b| + |c| then c[i - |a| - |b|]
      else if i < |a| + |b| + |c| + |d| then d[i - |a| - |b| - |c|]
      else e[i - |a| - |b| - |c| - |d|]
  {
  }

  /** The parts a rendered token is made of. */
  function SourcePart(n: Notation): string
    requires WellFormed(n)
  {
    if n.from.Some? then [FileLetters[n.from.value]] else ""
  }

  function CapturePart(n: Notation): string
  {
    if n.capture then "x" else ""
  }

  function SquarePart(n: Notation): string
    requires WellFormed(n)
  {
    [FileLetters[n.to.file], RankDigits[n.to.rank]]
  }

  lemma RenderParts(n: Notation)
    requires WellFormed(n)
    ensures Render(n) == KindPrefix(n.kind) + SourcePart(n) + CapturePart(n) + SquarePart(n) + CheckSuffix(n.check)
    ensures |KindPrefix(n.kind)| == FromAt(n)
    ensures |SourcePart(n)| == CaptureAt(n) - FromAt(n)
    ensures |CapturePart(n)| == SquareAt(n) - CaptureAt(n)
  {
  }

  /** The layout of a rendered token, char by char. */
  lemma RenderLayout(n: Notation)
    requires WellFormed(n)
    ensures var s := Render(n);
      && |s| == SquareAt(n) + 2 + |CheckSuffix(n.check)|
      && (n.kind != Pawn ==> s[0] == KindPrefix(n.kind)[0])
      && (n.from.Some? ==> s[FromAt(n)] == FileLetters[n.from.value])
      && (n.capture ==> s[CaptureAt(n)] == 'x')
      && s[SquareAt(n)] == FileLetters[n.to.file]
      && s[SquareAt(n) + 1] == RankDigits[n.to.rank]
      && s == s[..SquareAt(n) + 2] + CheckSuffix(n.check)
  {
    var s := Render(n);
    var head, file, cap, square, suffix := KindPrefix(n.kind), SourcePart(n), CapturePart(n), SquarePart(n), CheckSuffix(n.check);
    RenderParts(n);
    if n.kind != Pawn {
      Concat5At(head, file, cap, square, suffix, 0);
    }
    if n.from.Some? {
      Concat5At(head, file, cap, square, suffix, FromAt(n));
    }
    if n.capture {
      Concat5At(head, file, cap, square, suffix, CaptureAt(n));
    }
    Concat5At(head, file, cap, square, suffix, SquareAt(n));
    Concat5At(head, file, cap, square, suffix, SquareAt(n) + 1);
    assert s[..SquareAt(n) + 2] == head + file + cap + square;
  }

  /** After its piece letter a rendered token holds only `Lower` chars, and its
      one 'x' is the capture marker. */
  lemma RenderChars(n: Notation)
    requires WellFormed(n)
    ensures var s := Render(n);
      && (forall i :: FromAt(n) <= i < |s| ==> Lower(s[i]))
      && (forall i :: 0 <= i < |s| && s[i] == 'x' ==> n.capture && i == CaptureAt(n))
  {
    var s := Render(n);
    var head, file, cap, square, suffix := KindPrefix(n.kind), SourcePart(n), CapturePart(n), SquarePart(n), CheckSuffix(n.check);
    RenderParts(n);
    FileLetterAt(n.to.file);
    RankDigitAt(n.to.rank);
    if n.from.Some? {
      FileLetterAt(n.from.value);
    }
    forall i | 0 <= i < |s|
      ensures FromAt(n) <= i ==> Lower(s[i])
      ensures s[i] == 'x' ==> n.capture && i == CaptureAt(n)
    {
      Concat5At(head, file, cap, square, suffix, i);
    }
  }

  /** `FileIndex` inverts `FileLetters`. */
  lemma FileIndexOf(k: nat)
    requires k < 8
    ensures FileIndex(FileLetters[k]) == Some(k)
  {
  }

  /** A rendered token's kind is the notation's kind. */
  lemma RenderedKind(n: Notation)
    requires WellFormed(n)
    ensures TokenKind(Render(n)) == Ok(n.kind)
  {
    var s := Render(n);
    RenderLayout(n);
    RenderChars(n);
    if n.kind == Pawn {
      forall j | 0 <= j < |Symbols|
        ensures Symbols[j] !in s
      {
        NotInLower(s, Symbols[j], 'a');
      }
      NotInLower(s, 'O', 'a');
      TokenKindWithoutLetter(s);
    } else {
      var j := match n.kind
        case King => 0
        case Queen => 1
        case Bishop => 2
        case Knight => 3
        case _ => 4;
      assert s[0] == Symbols[j];
      forall i | 0 <= i < |Symbols| && i != j
        ensures Symbols[i] !in s
      {
        NotInLower(s, Symbols[i], Symbols[j]);
      }
      TokenKindLeading(s, j);
    }
  }

  /** A char that is neither `Lower` nor the token's first char does not occur in it. */
  lemma NotInLower(s: string, c: char, first: char)
    requires !Lower(c) && c != first && 0 < |s|
    requires Lower(s[0]) || s[0] == first
    requires forall i :: 1 <= i < |s| ==> Lower(s[i])
    ensures c !in s
  {
  }

  /** The capture and promotion markers read back from a rendered token are the notation's. */
  lemma RenderedCapture(n: Notation)
    requires WellFormed(n)
    ensures CaptureOf(Render(n)) == if n.capture then Capture.Yes else Capture.No
    ensures PromotionOf(Render(n)) == Promotion.No
  {
    var s := Render(n);
    RenderLayout(n);
    RenderChars(n);
    if n.capture {
      assert s[CaptureAt(n)] == 'x';
    }
    forall j | 0 <= j < |Symbols|
      ensures Find(s, Symbols[j]) != Some(3)
    {
      if |s| > 3 {
        assert Lower(s[3]);
      }
    }
  }

  /** The check marker read back from a rendered token is the notation's, and
      it reads as no castle. */
  lemma RenderedCheck(n: Notation, colour: Colour)
    requires WellFormed(n)
    ensures CheckOf(Render(n)) == n.check
    ensures CastleOf(Render(n), colour) == Ok(Castle.No)
  {
    var s := Render(n);
    RenderLayout(n);
    var body := s[..SquareAt(n) + 2];
    assert body[|body| - 1] == RankDigits[n.to.rank];
    CheckRoundTrip(body, n.check);
    if n.kind == Pawn {
      RenderChars(n);
      assert Lower(s[0]);
    }
  }

  /** The disambiguating file read back from a rendered token is the notation's. */
  lemma RenderedFrom(n: Notation, m: Move)
    requires WellFormed(n) && m.kind == n.kind && m.check == n.check
    ensures RemoveAmbiguity(m, Render(n)).from == n.from
  {
    var s := Render(n);
    RenderLayout(n);
    RenderChars(n);
    if n.from.Some? {
      FileIndexOf(n.from.value);
    } else if n.capture {
      assert s[CaptureAt(n)] == 'x';
    }
  }

  /** A file letter and a rank digit at the offset read as their square. */
  lemma FormatDestinationAt(s: string, offset: nat, sq: Square)
    requires 0 <= sq.file < 8 && 0 <= sq.rank < 8 && offset + 1 < |s|
    requires s[offset] == FileLetters[sq.file] && s[offset + 1] == RankDigits[sq.rank]
    ensures FormatDestination(s, offset) == Some(sq)
  {
    FileIndexOf(sq.file);
    RankDigitAt(sq.rank);
  }

  /** The destination read back at the computed offset is the notation's square. */
  lemma RenderedDestination(n: Notation, m: Move)
    requires WellFormed(n) && m.kind == n.kind && m.from == n.from
    requires m.capture == (if n.capture then Capture.Yes else Capture.No)
    ensures GetOffset(m) == SquareAt(n)
    ensures FormatDestination(Render(n), SquareAt(n)) == Some(n.to)
  {
    RenderLayout(n);
    FormatDestinationAt(Render(n), SquareAt(n), n.to);
  }

  /** Parsing a rendered token gives back the notation, as a move of the given colour. */
  lemma ParseRender(n: Notation, code: char)
    requires WellFormed(n) && code in "wb"
    ensures ParseMove(Render(n), code) ==
      Ok(Move(n.kind, if code == 'w' then White else Black, Castle.No,
              if n.capture then Capture.Yes else Capture.No, Promotion.No, n.check,
              n.from, Some(n.to)))
  {
    var s := Render(n);
    var colour := if code == 'w' then White else Black;
    RenderedKind(n);
    RenderedCapture(n);
    RenderedCheck(n, colour);
    var m0 := Move(n.kind, colour, Castle.No, CaptureOf(s), PromotionOf(s), CheckOf(s), None, None);
    RenderedFrom(n, m0);
    var m1 := RemoveAmbiguity(m0, s);
    RenderedDestination(n, m1);
    assert SetDestination(m1, s) == m1.(to := Some(n.to));
  }

  // ---------------------------------------------------------------------------
  // Turns.

  /** `str::split(" ")`: the pieces between single spaces, empty ones included. */
  function Split(s: string): (r: seq<string>)
    ensures |r| >= 1
    ensures forall k :: 0 <= k < |r| ==> ' ' !in r[k]
  {
    match Find(s, ' ')
    case None => [s]
    case Some(i) => [s[..i]] + Split(s[i + 1..])
  }

  /** The pieces joined with single spaces. */
  function Join(parts: seq<string>): string
    requires |parts| >= 1
  {
    if |parts| == 1 then parts[0] else parts[0] + " " + Join(parts[1..])
  }

  lemma {:induction false} JoinSplit(s: string)
    ensures Join(Split(s)) == s
  {
    match Find(s, ' ')
    case None =>
    case Some(i) =>
      var rest := Split(s[i + 1..]);
      assert Split(s) == [s[..i]] + rest;
      JoinSplit(s[i + 1..]);
      assert Join([s[..i]] + rest) == s[..i] + " " + Join(rest) by {
        assert ([s[..i]] + rest)[1..] == rest;
      }
      assert s == s[..i] + " " + s[i + 1..];
  }

  /** The first space of `a + " " + b` is right after `a` when `a` has none. */
  lemma FindSpaceAfter(a: string, b: string)
    requires ' ' !in a
    ensures Find(a + " " + b, ' ') == Some(|a|)
  {
    var s := a + " " + b;
    assert s[|a|] == ' ';
    assert s[..|a|] == a;
  }

  lemma {:induction false} SplitJoin(parts: seq<string>)
    requires |parts| >= 1 && forall k :: 0 <= k < |parts| ==> ' ' !in parts[k]
    ensures Split(Join(parts)) == parts
  {
    if |parts| > 1 {
      var rest := Join(parts[1..]);
      var s := parts[0] + " " + rest;
      assert Join(parts) == s;
      FindSpaceAfter(parts[0], rest);
      assert s[..|parts[0]|] == parts[0];
      assert s[|parts[0]| + 1..] == rest;
      assert forall k :: 0 <= k < |parts[1..]| ==> parts[1..][k] == parts[k + 1];
      SplitJoin(parts[1..]);
      assert Split(s) == [parts[0]] + parts[1..];
    } else {
      assert Find(parts[0], ' ') == None;
    }
  }

  /** `Turn::new_from_notation`: the first token is White's move and the second
      Black's; later tokens are ignored, and a line with one token panics once
      its move has parsed. */
  function ParseTurn(line: string): (r: Result<Turn>)
    ensures r.Ok? ==> r.value.white.colour == White && r.value.black.colour == Black
  {
    var tokens := Split(line);
    var white :- ParseMove(tokens[0], 'w');
    if |tokens| < 2 then Fail(MissingToken)
    else
      var black :- ParseMove(tokens[1], 'b');
      Ok(Turn(white, black))
  }

  /** Splitting a line of space-free tokens gives its first two back first. */
  lemma SplitLeading(w: string, b: string, rest: seq<string>)
    requires ' ' !in w && ' ' !in b && forall k :: 0 <= k < |rest| ==> ' ' !in rest[k]
    ensures var tokens := Split(Join([w, b] + rest));
      |tokens| >= 2 && tokens[0] == w && tokens[1] == b
  {
    var parts := [w, b] + rest;
    forall k | 0 <= k < |parts|
      ensures ' ' !in parts[k]
    {
      if k >= 2 {
        assert parts[k] == rest[k - 2];
      }
    }
    SplitJoin(parts);
  }

  /** A line of two or more space-free tokens is the turn of its first two:
      it fails with White's failure, else with Black's, else gives both moves. */
  lemma ParseTurnTokens(w: string, b: string, rest: seq<string>)
    requires ' ' !in w && ' ' !in b && forall k :: 0 <= k < |rest| ==> ' ' !in rest[k]
    ensures var r := ParseTurn(Join([w, b] + rest));
      && (ParseMove(w, 'w').Fail? ==> r == Fail(ParseMove(w, 'w').failure))
      && (ParseMove(w, 'w').Ok? && ParseMove(b, 'b').Fail? ==> r == Fail(ParseMove(b, 'b').failure))
      && (ParseMove(w, 'w').Ok? && ParseMove(b, 'b').Ok? ==>
            r == Ok(Turn(ParseMove(w, 'w').value, ParseMove(b, 'b').value)))
  {
    SplitLeading(w, b, rest);
  }

  /** A line without a space has one token: it never makes a turn. */
  lemma ParseTurnOneToken(line: string)
    requires ' ' !in line
    ensures ParseTurn(line).Fail?
  {
    SplitJoin([line]);
  }

  /** Worked examples: the two pawn moves of the first test turn, a pawn
      capture naming its file, and Black's "g6". */
  lemma ParsePawnExamples()
    ensures ParseMove("e4", 'w') == Ok(Move(Pawn, White, Castle.No, Capture.No, Promotion.No, Check.No, None, Some(Square(4, 3))))
    ensures ParseMove("d6", 'b') == Ok(Move(Pawn, Black, Castle.No, Capture.No, Promotion.No, Check.No, None, Some(Square(3, 5))))
    ensures ParseMove("exd5", 'w') == Ok(Move(Pawn, White, Castle.No, Capture.Yes, Promotion.No, Check.No, Some(4), Some(Square(3, 4))))
    ensures ParseMove("g6", 'b') == Ok(Move(Pawn, Black, Castle.No, Capture.No, Promotion.No, Check.No, None, Some(Square(6, 5))))
  {
    var e4 := Notation(Pawn, None, false, Square(4, 3), Check.No);
    var d6 := Notation(Pawn, None, false, Square(3, 5), Check.No);
    var exd5 := Notation(Pawn, Some(4), true, Square(3, 4), Check.No);
    var g6 := Notation(Pawn, None, false, Square(6, 5), Check.No);
    assert Render(e4) == "e4" && Render(d6) == "d6" && Render(exd5) == "exd5" && Render(g6) == "g6";
    ParseRender(g6, 'b');
    ParseRender(e4, 'w');
    ParseRender(d6, 'b');
    ParseRender(exd5, 'w');
  }

  /** Worked examples: the three knight forms. */
  lemma ParseKnightExamples()
    ensures ParseMove("Nbd7", 'b') == Ok(Move(Knight, Black, Castle.No, Capture.No, Promotion.No, Check.No, Some(1), Some(Square(3, 6))))
    ensures ParseMove("Nxd7", 'b') == Ok(Move(Knight, Black, Castle.No, Capture.Yes, Promotion.No, Check.No, None, Some(Square(3, 6))))
    ensures ParseMove("Nc3+", 'w') == Ok(Move(Knight, White, Castle.No, Capture.No, Promotion.No, Check.Check, None, Some(Square(2, 2))))
  {
    var nbd7 := Notation(Knight, Some(1), false, Square(3, 6), Check.No);
    var nxd7 := Notation(Knight, None, true, Square(3, 6), Check.No);
    var nc3 := Notation(Knight, None, false, Square(2, 2), Check.Check);
    assert Render(nbd7) == "Nbd7" && Render(nxd7) == "Nxd7" && Render(nc3) == "Nc3+";
    ParseRender(nbd7, 'b');
    ParseRender(nxd7, 'b');
    ParseRender(nc3, 'w');
  }

  /** The two piece moves that `test_find_first` resolves: "Nc3" for White and
      "Bg7" for Black name no file and go to (2, 2) and (6, 6). */
  lemma ParseResolutionExamples()
    ensures ParseMove("Nc3", 'w') == Ok(Move(Knight, White, Castle.No, Capture.No, Promotion.No, Check.No, None, Some(Square(2, 2))))
    ensures ParseMove("Bg7", 'b') == Ok(Move(Bishop, Black, Castle.No, Capture.No, Promotion.No, Check.No, None, Some(Square(6, 6))))
  {
    var nc3 := Notation(Knight, None, false, Square(2, 2), Check.No);
    var bg7 := Notation(Bishop, None, false, Square(6, 6), Check.No);
    assert Render(nc3) == "Nc3" && Render(bg7) == "Bg7";
    ParseRender(nc3, 'w');
    ParseRender(bg7, 'b');
  }

  /** The line "e4 g6" that `test_make_a_move` replays splits into its two tokens. */
  lemma SplitExample()
    ensures Split("e4 g6") == ["e4", "g6"]
  {
    assert Join(["e4", "g6"]) == "e4 g6" by {
      assert ["e4", "g6"][1..] == ["g6"];
    }
    SplitJoin(["e4", "g6"]);
  }

  lemma ParseTurnExampleStep(w: Move, bl: Move)
    requires ParseMove("e4", 'w') == Ok(w) && ParseMove("g6", 'b') == Ok(bl)
    ensures ParseTurn("e4 g6") == Ok(Turn(w, bl))
  {
    SplitExample();
  }

  /** The line "e4 g6" is White's pawn to (4, 3) and Black's pawn to (6, 5). */
  lemma ParseTurnExample()
    ensures ParseTurn("e4 g6") ==
      Ok(Turn(Move(Pawn, White, Castle.No, Capture.No, Promotion.No, Check.No, None, Some(Square(4, 3))),
              Move(Pawn, Black, Castle.No, Capture.No, Promotion.No, Check.No, None, Some(Square(6, 5)))))
  {
    ParsePawnExamples();
    ParseTurnExampleStep(Move(Pawn, White, Castle.No, Capture.No, Promotion.No, Check.No, None, Some(Square(4, 3))),
                         Move(Pawn, Black, Castle.No, Capture.No, Promotion.No, Check.No, None, Some(Square(6, 5))));
  }

  /** A castling token moves the king to file 6 (short) or 2 (long) on its home
      rank, the castle marker carrying the rook's square. */
  lemma ParseCastle(code: char)
    requires code in "wb"
    ensures var rank := if code == 'w' then 0 else 7;
      ParseMove("O-O", code).Ok? &&
      ParseMove("O-O", code).value.kind == King &&
      ParseMove("O-O", code).value.castle == Short(Square(7, rank)) &&
      ParseMove("O-O", code).value.to == Some(Square(6, rank)) &&
      ParseMove("O-O-O", code).Ok? &&
      ParseMove("O-O-O", code).value.castle == Long(Square(0, rank)) &&
      ParseMove("O-O-O", code).value.to == Some(Square(2, rank))
  {
    forall j | 0 <= j < |Symbols|
      ensures Symbols[j] !in "O-O" && Symbols[j] !in "O-O-O"
    {
    }
    TokenKindWithoutLetter("O-O");
    TokenKindWithoutLetter("O-O-O");
  }
}
