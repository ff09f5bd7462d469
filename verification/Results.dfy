/** The outcomes of the driver's calls. */
module Results {
  datatype Status = Success | InvalidValue | InvalidImage | OutOfResources | Unknown

  datatype Option<T> = None | Some(value: T)
}
