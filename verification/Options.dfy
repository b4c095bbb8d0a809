/** The two result shapes the model uses for C's null pointers and -1 returns. */
module Options {
  datatype Option<+T> = None | Some(value: T)
}
