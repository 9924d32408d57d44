/** An optional value: `None` stands for Python's `None`, which is what a
    missing form field or an unparsable text yields. */
module Options {

  datatype Option<+T> = None | Some(value: T)
}
