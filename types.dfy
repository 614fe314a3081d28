/** The value types of the notation: squares, piece kinds, colours and the
    per-field markers of a move token, with the classifiers that read each
    marker from one token (src/types.rs). Tokens are ASCII, so a byte index
    is a char index. */
module Types {
  import opened Wrappers

  /** A square as `[file, rank]`; generated squares may lie off the board. */
  datatype Square = Square(file: int, rank: int)

  datatype PieceType = Pawn | King | Queen | Bishop | Knight | Rook

  datatype Colour = White | Black

  datatype Check = No | Check | Mate

  /** A castle marker carries the square of the rook that castles. */
  datatype Castle = No | Short(rook: Square) | Long(rook: Square)

  datatype Capture = Yes | No

  datatype Promotion = Yes(piece: PieceType) | No

  /** The kinds in the order of the letters and glyphs below. */
  const Kinds: seq<PieceType> := [Pawn, King, Queen, Bishop, Knight, Rook]
  const Letters: string := "PKQBNR"
  const WhiteGlyphs: string := "♙♔♕♗♘♖"
  const BlackGlyphs: string := "♟♚♛♝♞♜"

  /** The letters the token scanners look for, in the order they look. */
  const Symbols: string := "KQBNR"

  /** The rank a colour's back-row pieces start on. */
  function HomeRank(colour: Colour): int
  {
    if colour == White then 0 else 7
  }

  /** `PieceType::from(char)`: a letter or a glyph names a kind; any other char panics. */
  function PieceTypeFromChar(c: char): (r: Result<PieceType>)
    ensures r.Ok? <==> c in Letters || c in WhiteGlyphs || c in BlackGlyphs
    ensures forall i :: 0 <= i < 6 && (c == Letters[i] || c == WhiteGlyphs[i] || c == BlackGlyphs[i]) ==>
      r == Ok(Kinds[i])
  {
    match c
    case 'P' | '♙' | '♟' => Ok(Pawn)
    case 'K' | '♔' | '♚' => Ok(King)
    case 'Q' | '♕' | '♛' => Ok(Queen)
    case 'B' | '♗' | '♝' => Ok(Bishop)
    case 'N' | '♘' | '♞' => Ok(Knight)
    case 'R' | '♖' | '♜' => Ok(Rook)
    case _ => Fail(UnknownPieceLetter)
  }

  /** `Colour::from(char)`. */
  function ColourFromChar(c: char): (r: Result<Colour>)
    ensures r == Ok(White) <==> c in "wW" || c in WhiteGlyphs
    ensures r == Ok(Black) <==> c in "bB" || c in BlackGlyphs
    ensures r.Fail? <==> !(c in "wWbB" || c in WhiteGlyphs || c in BlackGlyphs)
  {
    match c
    case 'w' | 'W' | '♙' | '♔' | '♕' | '♗' | '♘' | '♖' => Ok(White)
    case 'b' | 'B' | '♟' | '♚' | '♛' | '♝' | '♞' | '♜' => Ok(Black)
    case _ => Fail(UnknownColour)
  }

  /** `str::find` for one char: the index of its first occurrence. */
  function Find(s: string, c: char): (r: Option<nat>)
    ensures r.None? <==> c !in s
    ensures r.Some? ==> r.value < |s| && s[r.value] == c && c !in s[..r.value]
  {
    if |s| == 0 then None
    else if s[0] == c then Some(0)
    else match Find(s[1..], c)
      case Some(k) => Some(k + 1)
      case None => None
  }

  /** Every scanned symbol is a piece letter, of the kind in the same place. */
  lemma SymbolsAreLetters()
    ensures forall j :: 0 <= j < |Symbols| ==> Symbols[j] == Letters[j + 1]
    ensures forall j :: 0 <= j < |Symbols| ==> PieceTypeFromChar(Symbols[j]) == Ok(Kinds[j + 1])
  {
    assert Symbols == Letters[1..];
  }

  /** The kind the letter `Symbols[j]` names. */
  function SymbolKind(j: nat): (k: PieceType)
    requires j < |Symbols|
    ensures PieceTypeFromChar(Symbols[j]) == Ok(k)
    ensures k != Pawn
  {
    SymbolsAreLetters();
    PieceTypeFromChar(Symbols[j]).value
  }

  // ---------------------------------------------------------------------------
  // `PieceType::from(&str)`: a loop over "KQBNR" in which a later hit overwrites
  // an earlier one.

  /** The letter `Symbols[j]` first occurs in `s` somewhere other than index 0 or 3. */
  predicate Misplaced(s: string, j: nat)
    requires j < |Symbols|
  {
    var at := Find(s, Symbols[j]);
    at.Some? && at.value != 0 && at.value != 3
  }

  /** What the scan records for the letter `Symbols[j]`: its kind at index 0, Pawn at index 3. */
  function Hit(s: string, j: nat): Option<PieceType>
    requires j < |Symbols|
  {
    match Find(s, Symbols[j])
    case Some(0) => Some(SymbolKind(j))
    case Some(3) => Some(Pawn)
    case _ => None
  }

  /** The value of the scan's variable after the first `k` letters: the last hit. */
  function LastHit(s: string, k: nat): Option<PieceType>
    requires k <= |Symbols|
  {
    if k == 0 then None
    else if Hit(s, k - 1).Some? then Hit(s, k - 1)
    else LastHit(s, k - 1)
  }

  /** The kind a token names: a misplaced letter panics; with no letter hit, a
      token holding an 'O' (castling) is the King's and any other a Pawn's. */
  function TokenKind(s: string): Result<PieceType>
  {
    if exists j :: 0 <= j < |Symbols| && Misplaced(s, j) then Fail(MisplacedPieceLetter)
    else match LastHit(s, |Symbols|)
      case Some(k) => Ok(k)
      case None => if Find(s, 'O').Some? then Ok(King) else Ok(Pawn)
  }

  /** `PieceType::from(&str)` as the loop the Rust code runs. */
  method PieceTypeFromStr(value: string) returns (r: Result<PieceType>)
    ensures r == TokenKind(value)
  {
    var piece: Option<PieceType> := None;
    for k := 0 to |Symbols|
      invariant piece == LastHit(value, k)
      invariant forall j :: 0 <= j < k ==> !Misplaced(value, j)
    {
      var symbol := Symbols[k];
      var found := Find(value, symbol);
      if found.Some? {
        var pos := found.value;
        if pos == 0 {
          piece := Some(PieceTypeFromChar(symbol).value);
        } else if pos == 3 {
          piece := Some(Pawn);
        } else {
          assert Misplaced(value, k);
          return Fail(MisplacedPieceLetter);
        }
      }
    }
    if piece.None? {
      piece := if Find(value, 'O').Some? then Some(King) else Some(Pawn);
    }
    r := Ok(piece.value);
  }

  /** The scan recorded a hit for letter `j` exactly when it first occurs at 0 or 3. */
  lemma {:induction false} LastHitSome(s: string, k: nat)
    requires k <= |Symbols|
    ensures LastHit(s, k).Some? <==> exists j :: 0 <= j < k && Hit(s, j).Some?
  {
    if k > 0 {
      LastHitSome(s, k - 1);
    }
  }

  /** A token carrying no piece letter at all is the King's when it holds an
      'O' and a Pawn's otherwise. */
  lemma TokenKindWithoutLetter(s: string)
    requires forall j :: 0 <= j < |Symbols| ==> Symbols[j] !in s
    ensures TokenKind(s) == if 'O' in s then Ok(King) else Ok(Pawn)
  {
    LastHitSome(s, |Symbols|);
  }

  /** A token whose only piece letter stands at index 0 names that letter's kind. */
  lemma TokenKindLeading(s: string, j: nat)
    requires j < |Symbols| && |s| > 0 && s[0] == Symbols[j]
    requires forall i :: 0 <= i < |Symbols| && i != j ==> Symbols[i] !in s
    ensures TokenKind(s) == Ok(SymbolKind(j))
  {
    assert Find(s, Symbols[j]) == Some(0);
    assert Hit(s, j) == Some(SymbolKind(j));
    forall i | j < i <= |Symbols|
      ensures LastHit(s, i) == Some(SymbolKind(j))
    {
      LastHitFrom(s, j, i);
    }
  }

  /** Past letter `j`, letters absent from the token leave the last hit alone. */
  lemma {:induction false} LastHitFrom(s: string, j: nat, i: nat)
    requires j < i <= |Symbols| && Hit(s, j).Some?
    requires forall l :: j < l < |Symbols| ==> Symbols[l] !in s
    ensures LastHit(s, i) == Hit(s, j)
  {
    if i > j + 1 {
      LastHitFrom(s, j, i - 1);
    }
  }

  /** A token whose only piece letter first occurs at index 3 (a promotion
      letter, as in "e8=Q") is a Pawn's. */
  lemma TokenKindPromotionSlot(s: string, j: nat)
    requires j < |Symbols| && |s| > 3 && s[3] == Symbols[j] && Symbols[j] !in s[..3]
    requires forall i :: 0 <= i < |Symbols| && i != j ==> Symbols[i] !in s
    ensures TokenKind(s) == Ok(Pawn)
  {
    assert Find(s, Symbols[j]) == Some(3);
    forall i | j < i <= |Symbols|
      ensures LastHit(s, i) == Some(Pawn)
    {
      LastHitFrom(s, j, i);
    }
  }

  /** Any piece letter first seen at an index other than 0 or 3 makes the token panic. */
  lemma TokenKindMisplaced(s: string, j: nat, at: nat)
    requires j < |Symbols| && at < |s| && at != 0 && at != 3
    requires s[at] == Symbols[j] && Symbols[j] !in s[..at]
    ensures TokenKind(s) == Fail(MisplacedPieceLetter)
  {
    assert Find(s, Symbols[j]) == Some(at);
    assert Misplaced(s, j);
  }

  // ---------------------------------------------------------------------------
  // The markers read from a token.

  /** `Check::from(&str)`: the last char '+' is check, '#' is mate. */
  function CheckOf(s: string): (r: Check)
    ensures r != Check.No <==> |s| > 0 && s[|s| - 1] in "+#"
    ensures r == Check <==> |s| > 0 && s[|s| - 1] == '+'
    ensures r == Mate <==> |s| > 0 && s[|s| - 1] == '#'
  {
    if |s| > 0 && s[|s| - 1] == '+' then Check
    else if |s| > 0 && s[|s| - 1] == '#' then Mate
    else Check.No
  }

  /** `bool::from(Check)`. */
  function IsCheckOrMate(c: Check): bool
  {
    c != Check.No
  }

  /** The suffix a descriptor writes for a check marker (the inverse of CheckOf). */
  function CheckSuffix(c: Check): string
  {
    match c
    case No => ""
    case Check => "+"
    case Mate => "#"
  }

  /** Reading the check marker back off a token written with it gives it back,
      and the marker is "check or mate" exactly when the suffix is non-empty. */
  lemma CheckRoundTrip(body: string, c: Check)
    requires |body| > 0 && body[|body| - 1] != '+' && body[|body| - 1] != '#'
    ensures CheckOf(body + CheckSuffix(c)) == c
    ensures IsCheckOrMate(CheckOf(body + CheckSuffix(c))) <==> |CheckSuffix(c)| == 1
  {
  }

  /** `Castle::from`: a token starting with 'O' castles short when at most three
      chars long and long otherwise, with the rook of the mover's colour on file 7
      or 0; the empty token panics. */
  function CastleOf(s: string, colour: Colour): (r: Result<Castle>)
    ensures r.Fail? <==> |s| == 0
    ensures r.Ok? ==> (r.value != Castle.No <==> s[0] == 'O')
    ensures r.Ok? && r.value.Short? ==> |s| <= 3 && r.value.rook == Square(7, HomeRank(colour))
    ensures r.Ok? && r.value.Long? ==> |s| > 3 && r.value.rook == Square(0, HomeRank(colour))
  {
    if |s| == 0 then Fail(EmptyToken)
    else if s[0] == 'O' && |s| <= 3 then Ok(Short(Square(7, HomeRank(colour))))
    else if s[0] == 'O' then Ok(Long(Square(0, HomeRank(colour))))
    else Ok(Castle.No)
  }

  /** The length test makes a castling token with a check marker long: "O-O+" is
      read as Long, like "O-O-O". */
  lemma CastleTokens(colour: Colour)
    ensures CastleOf("O-O", colour) == Ok(Short(Square(7, HomeRank(colour))))
    ensures CastleOf("O-O-O", colour) == Ok(Long(Square(0, HomeRank(colour))))
    ensures CastleOf("O-O+", colour) == Ok(Long(Square(0, HomeRank(colour))))
    ensures CastleOf("e4", colour) == Ok(Castle.No)
  {
  }

  /** `Capture::from`: a capture exactly when an 'x' occurs anywhere. */
  function CaptureOf(s: string): (r: Capture)
    ensures r == Capture.Yes <==> exists i :: 0 <= i < |s| && s[i] == 'x'
  {
    match Find(s, 'x')
    case Some(_) => Capture.Yes
    case None => Capture.No
  }

  // ---------------------------------------------------------------------------
  // `Promotion::from`: the same loop over "KQBNR", keeping only hits at index 3.

  /** A promotion exactly when some piece letter first occurs at index 3. */
  function PromotionOf(s: string): (r: Promotion)
    ensures r.Yes? <==> exists j :: 0 <= j < |Symbols| && Find(s, Symbols[j]) == Some(3)
    ensures r.Yes? ==> r.piece != Pawn && PieceTypeFromChar(s[3]) == Ok(r.piece)
  {
    if |s| > 3 && s[3] in Symbols && Find(s, s[3]) == Some(3) then
      var j :| 0 <= j < |Symbols| && Symbols[j] == s[3];
      Promotion.Yes(SymbolKind(j))
    else
      Promotion.No
  }

  /** `Promotion::from` as the loop the Rust code runs. */
  method PromotionFromStr(value: string) returns (r: Promotion)
    ensures r == PromotionOf(value)
  {
    var piece: Option<PieceType> := None;
    for k := 0 to |Symbols|
      invariant piece.Some? <==> exists j :: 0 <= j < k && Find(value, Symbols[j]) == Some(3)
      invariant piece.Some? ==> |value| > 3 && PieceTypeFromChar(value[3]) == Ok(piece.value)
    {
      var symbol := Symbols[k];
      var found := Find(value, symbol);
      if found.Some? && found.value == 3 {
        piece := Some(PieceTypeFromChar(symbol).value);
      }
    }
    r := match piece
      case Some(p) => Promotion.Yes(p)
      case None => Promotion.No;
    SymbolsAreLetters();
  }
}
