/** The optional values used throughout, standing for Python's `None` and for `-math.inf`. */
module Options {
  datatype Option<+T> = None | Some(value: T)
}
