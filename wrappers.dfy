/** The "value or nothing" wrapper used for the result of one poll of the server directory. */
module Wrappers {

  /** `None` stands for a poll that produced no data (network error, bad status, malformed payload). */
  datatype Option<+T> = None | Some(value: T)
}
