/** Option and Result, and the ways a replay can fail.
    Every Rust panic and every `Err` of the chess replay becomes `Fail(reason)`. */
module Wrappers {

  datatype Option<+T> = None | Some(value: T)

  /** Why a parse or a replay step stopped. */
  datatype Failure =
    | UnknownPieceLetter          // `PieceType::from(char)` on a char it does not know
    | MisplacedPieceLetter        // a K/Q/B/N/R letter first seen at an index other than 0 or 3
    | UnknownColour               // `Colour::from(char)` on a char it does not know
    | EmptyToken                  // `Castle::from` reads the first char of an empty token
    | MissingToken                // a turn line with fewer than two tokens
    | MissingDestination          // `mv.to.unwrap()` on a move without a destination
    | MissingCastlingRook         // no piece on the castling payload square
    | NotALine                    // `get_tiles_between(..).unwrap()` on two squares off a line
    | CandidateCount(count: nat)  // `find_moved_piece` did not find exactly one piece

  datatype Result<+T> = Ok(value: T) | Fail(failure: Failure) {
    predicate IsFailure() { Fail? }

    function PropagateFailure<U>(): Result<U>
      requires Fail?
    {
      Fail(failure)
    }

    function Extract(): T
      requires Ok?
    {
      value
    }
  }
}
