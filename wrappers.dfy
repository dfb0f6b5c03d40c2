/** A value that may be absent: a document field that was never set, or a
    dictionary lookup that found nothing. */
module Wrappers {

  datatype Option<+T> = None | Some(value: T)
}
