/** Optional values: Ruby's `nil` results (a bang method that changed nothing,
    a missing XML attribute, a file that is not there) are `None`. */
module Options {
  datatype Option<+T> = None | Some(value: T)
}
