/** The optional values of the widget: JavaScript's `null` for a state field
    that holds nothing, and `undefined` or `null` for a JSON member that is
    absent or null. */
module Options {

  datatype Option<+T> = None | Some(value: T)
}
