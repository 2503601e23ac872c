/** The Option type the model uses for a value that may be absent:
    a configuration row that is not there, a date computation that throws,
    a paycheck that could not be computed. */
module Wrappers {
  datatype Option<+T> = None | Some(value: T)
}
