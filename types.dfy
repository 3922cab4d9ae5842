/** Values shared by every part of the game: the content of one board cell
    and an optional value standing in for JavaScript's `null`. */
module Types {

  /** One board cell: the empty string, the player's 'X' or the computer's 'O'. */
  datatype Cell = Empty | X | O

  /** A result that may be missing (`null` in the game's code). */
  datatype Option<+T> = None | Some(value: T)

  /** The two marks that can be placed on the board. */
  predicate IsMark(s: Cell) {
    s == X || s == O
  }
}
