/** A nullable value: JSON `null`, a missing key or `undefined` in the bot's data. */
module Wrappers {

  datatype Option<+T> = None | Some(value: T)
}
