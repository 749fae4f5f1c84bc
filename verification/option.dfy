/** An optional value, used for lookups that can miss (a pop from an empty
    task stack, a name that matches no format). */
module Options {

  datatype Option<+T> = None | Some(value: T)
}
