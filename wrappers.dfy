/** The optional-value type used for every field that an extractor may fail to find. */
module Wrappers {

  datatype Option<+T> = None | Some(value: T)

}
