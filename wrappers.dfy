/** The optional-value wrapper used for JSON fields that may be absent. */
module Wrappers {

  /** `None` stands for a key that is absent from the JSON object (or is `null`). */
  datatype Option<+T> = None | Some(value: T)
}
