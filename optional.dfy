/** The optional value used for empty table cells, failed parses and lookups. */
module Optional {

  datatype Option<+T> = None | Some(value: T)
}
