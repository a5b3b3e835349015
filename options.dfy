/** An optional value.  It stands for the nullable `RigidBody*` arguments of the
    solver's primitives. */
module Options {
  datatype Option<T> = None | Some(value: T)
}
