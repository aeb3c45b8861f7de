/** The optional value shared by the transliteration rules and the
    country table. */
module Wrappers {

  datatype Option<T> = None | Some(value: T)
}
