/** Option type for the references and results that the engine can leave null. */
module Optional {
  datatype Option<+T> = None | Some(value: T)
}
