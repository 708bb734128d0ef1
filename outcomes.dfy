/** Error kinds raised (as std::runtime_error) by the turn logic, and the
    result type that replaces the exceptions. */
module Outcomes {

  datatype MoveError =
    | InvalidCoordinate      // convertCoordinate: character outside '1'-'8', 'a'-'h', 'A'-'H'
    | EmptyStart             // no piece on the starting square
    | NotYourTurn            // Move::makeMove: piece colour differs from the side to move
    | IllegalDestination     // canMove refused the destination
    | NotFromTrackedSquare   // a capture step that does not start where the last one ended

  datatype Result<T> = Ok(value: T) | Err(error: MoveError)
}
