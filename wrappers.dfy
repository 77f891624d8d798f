/** The optional value used wherever the bot's code has `None`. */
module Wrappers {

  datatype Option<+T> = None | Some(value: T)

}
