/** The optional value used throughout the model: the `Maybe` of the maybeasy
    library (`just(v)` / `nothing()`). */
module Wrappers {

  datatype Option<+T> = None | Some(value: T)
}
