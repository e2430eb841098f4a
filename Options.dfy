/** The optional value used for the game's "maybe absent" state: a remembered card element,
    an artwork URL that the species lookup may or may not return, a deck that may not be ready. */
module Options {
  datatype Option<T> = None | Some(value: T)
}
