/** Small result types shared by every store of the assistant. */
module Wrappers {

  /** Python's `None` or a value. */
  datatype Option<+T> = None | Some(value: T)

  /**
   * Many operations of the assistant return either data (a list, a dict) or a
   * natural-language sentinel string such as "I don't remember that.".
   */
  datatype Reply<+T> = Data(value: T) | Message(text: string)

  /** What a Python operation gives back: a value, or the exception it raises. */
  datatype Outcome<+T> = Returned(value: T) | Raised(error: string)
}
