/** Optional values: what Go expresses with nil or a "comma ok" result. */
module Options {

  datatype Option<+T> = None | Some(value: T)

}
