/** The optional value used for results that pandas leaves missing (NaN) and for
    reports that are not produced. */
module Wrappers {

  datatype Option<+T> = None | Some(value: T)
}
