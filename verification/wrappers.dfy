/** Optional values: the Python `None` of the bot, made explicit. */
module Wrappers {

  datatype Option<+T> = None | Some(value: T)
}
