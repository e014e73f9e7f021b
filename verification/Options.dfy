/** A result that may be missing, for the sources' std::optional, null and -1 returns. */
module Options {
  datatype Option<+T> = None | Some(value: T)
}
