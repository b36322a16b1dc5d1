/** The optional value used for an empty tile, an absent en-passant pawn and a missing best move. */
module Options {
  datatype Option<+T> = None | Some(value: T)
}
