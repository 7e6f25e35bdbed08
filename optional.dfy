/** An optional value: JavaScript's `null` / `undefined` where the source uses one. */
module Optional {

  datatype Option<+T> = None | Some(value: T)
}
