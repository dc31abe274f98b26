/** The optional value used for texture atlases, in-range ids and proximity targets. */
module Optional {
  datatype Option<T> = None | Some(value: T)
}
