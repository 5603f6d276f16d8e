/** The optional value used across the model: a missing JSON field, a JavaScript
    `null`, or a handler that did nothing. */
module Options {

  datatype Option<T> = None | Some(value: T)
}
