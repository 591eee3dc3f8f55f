/** The optional value used for every "may be absent" result of the model:
    a filename without a date, a file whose creation time cannot be read,
    an image whose perceptual hash could not be computed. */
module Wrappers {

  datatype Option<+T> = None | Some(value: T)
}
