/** The optional value used wherever the scraper keeps "nothing found yet" (Python's None). */
module Wrappers {
  datatype Option<+T> = None | Some(value: T)
}
