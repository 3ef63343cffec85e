/** The Option type used for "a value, or none": a thread-local that holds
    nothing reads as Java `null`, modelled here as `None`. */
module Options {

  datatype Option<+T> = None | Some(value: T)
}
